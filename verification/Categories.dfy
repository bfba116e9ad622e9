/** What the results of the five-card classifiers mean on the cards themselves (poker/evaluator.py:106-239). */
module Categories {
  import opened Cards
  import opened HandOrder
  import opened RankCounting
  import opened FiveCards
  import opened FiveCardAgreement
  import opened BestHands

  // ---------------------------------------------------------------- said of the cards

  /** How many of the cards have the rank. */
  ghost function Held(cards: seq<Card>, rank: int): nat {
    |set i: nat | i < |cards| && cards[i].rank == rank|
  }

  /** Some rank is held by exactly `n` of the cards. */
  ghost predicate HasGroup(cards: seq<Card>, n: nat) {
    exists r: int :: Held(cards, r) == n
  }

  ghost predicate HasTwoPairs(cards: seq<Card>) {
    exists r, s: int :: r != s && Held(cards, r) == 2 && Held(cards, s) == 2
  }

  predicate OneSuit(cards: seq<Card>) {
    forall i, j :: 0 <= i < |cards| && 0 <= j < |cards| ==> cards[i].suit == cards[j].suit
  }

  /** The ranks of the cards are the five that end with `high`. */
  ghost predicate InARow(cards: seq<Card>, high: int) {
    forall r: int :: Held(cards, r) >= 1 <==> high - 4 <= r <= high
  }

  /** The ranks of the cards are ace, two, three, four and five. */
  ghost predicate AceToFive(cards: seq<Card>) {
    forall r: int :: Held(cards, r) >= 1 <==> r == 14 || 2 <= r <= 5
  }

  ghost predicate Run(cards: seq<Card>) {
    AceToFive(cards) || exists high :: InARow(cards, high)
  }

  /** The category of every result below the straight flushes, in terms of the cards. */
  ghost predicate CategoryFits(rank: HandRank, cards: seq<Card>) {
    && (rank == FourOfAKind <==> HasGroup(cards, 4))
    && (rank == FullHouse <==> HasGroup(cards, 3) && HasGroup(cards, 2))
    && (rank == Flush <==> OneSuit(cards) && !Run(cards)
                           && !HasGroup(cards, 4) && !(HasGroup(cards, 3) && HasGroup(cards, 2)))
    && (rank == Straight <==> Run(cards) && !OneSuit(cards))
    && (rank == ThreeOfAKind <==> !OneSuit(cards) && HasGroup(cards, 3) && !HasGroup(cards, 2))
    && (rank == TwoPair <==> !OneSuit(cards) && HasTwoPairs(cards))
    && (rank == OnePair <==> !OneSuit(cards) && HasGroup(cards, 2) && !HasTwoPairs(cards) && !HasGroup(cards, 3))
    && (rank == HighCard <==> !OneSuit(cards) && !Run(cards)
                              && !HasGroup(cards, 4) && !HasGroup(cards, 3) && !HasGroup(cards, 2))
  }

  /** The kickers, from the one that counts most, in terms of the cards. */
  ghost predicate KickersFit(h: HandResult, cards: seq<Card>) {
    var k := h.kickers;
    match h.rank
    case RoyalFlush => k == [14]
    case StraightFlush => |k| == 1 && (InARow(cards, k[0]) || (AceToFive(cards) && k[0] == 5))
    case FourOfAKind => |k| == 2 && Held(cards, k[0]) == 4 && Held(cards, k[1]) == 1
    case FullHouse => |k| == 2 && Held(cards, k[0]) == 3 && Held(cards, k[1]) == 2
    case Flush => Descending(k) && forall r: int :: multiset(k)[r] == Held(cards, r)
    case Straight => |k| == 1 && (InARow(cards, k[0]) || (AceToFive(cards) && k[0] == 5))
    case ThreeOfAKind =>
      |k| == 3 && Held(cards, k[0]) == 3 && Held(cards, k[1]) == Held(cards, k[2]) == 1 && k[1] > k[2]
    case TwoPair => |k| == 3 && Held(cards, k[0]) == Held(cards, k[1]) == 2 && k[0] > k[1] && Held(cards, k[2]) == 1
    case OnePair =>
      && |k| == 4 && Held(cards, k[0]) == 2
      && Held(cards, k[1]) == Held(cards, k[2]) == Held(cards, k[3]) == 1 && k[1] > k[2] > k[3]
    case HighCard => Descending(k) && forall r: int :: multiset(k)[r] == Held(cards, r)
  }

  // ---------------------------------------------------------------- counting

  lemma OneMoreHeld(cards: seq<Card>, r: int)
    requires cards != []
    ensures Held(cards, r) == Held(cards[..|cards| - 1], r) + if cards[|cards| - 1].rank == r then 1 else 0
  {
    var n, p := |cards| - 1, cards[..|cards| - 1];
    var a, b := (set i: nat | i < |p| && p[i].rank == r), (set i: nat | i < |cards| && cards[i].rank == r);
    forall i: nat ensures i in b <==> i in a || (i == n && cards[n].rank == r) {
      if i < n { assert p[i] == cards[i]; }
    }
    assert b == if cards[n].rank == r then a + {n} else a;
  }

  lemma {:induction false} HeldIsCounted(cards: seq<Card>, r: int)
    ensures Held(cards, r) == multiset(Ranks(cards))[r]
  {
    hide Held;
    if cards == [] {
      assert Held(cards, r) == 0 by { NothingHeld(cards, r); }
    } else {
      var n := |cards| - 1;
      HeldIsCounted(cards[..n], r);
      OneMoreHeld(cards, r);
      assert Ranks(cards) == Ranks(cards[..n]) + [cards[n].rank];
    }
  }

  lemma NothingHeld(cards: seq<Card>, r: int)
    requires cards == []
    ensures Held(cards, r) == 0
  {
    assert (set i: nat | i < |cards| && cards[i].rank == r) == {};
  }

  lemma {:induction false} OccurrencesAreCounted(s: seq<int>, x: int)
    ensures Occurrences(s, x) == multiset(s)[x]
  {
    if s != [] {
      OccurrencesAreCounted(s[..|s| - 1], x);
      assert s == s[..|s| - 1] + [s[|s| - 1]];
    }
  }

  lemma HeldIsOccurrences(cards: seq<Card>, r: int)
    ensures Held(cards, r) == Occurrences(SortedRanks(cards), r) == multiset(SortedRanks(cards))[r]
  {
    hide Held, Occurrences;
    HeldIsCounted(cards, r);
    OccurrencesAreCounted(SortedRanks(cards), r);
  }

  /** The ranks in the n-th group are those that occur n times. */
  lemma GroupIs(s: seq<int>, n: nat)
    requires n >= 1
    ensures forall x :: x in Occurring(s, n) <==> Occurrences(s, x) == n
  {
    hide Keys, Occurrences, OccurringAmong;
    KeysAreElements(s);
    OccurringCount(Keys(s), s, n);
    forall x | Occurrences(s, x) == n ensures x in Occurring(s, n) { InOccurring(Keys(s), s, x); }
  }

  lemma {:induction false} GroupFalls(keys: seq<int>, s: seq<int>, n: nat)
    requires forall i, j :: 0 <= i < j < |keys| ==> keys[i] > keys[j]
    ensures forall i, j :: 0 <= i < j < |OccurringAmong(keys, s, n)|
              ==> OccurringAmong(keys, s, n)[i] > OccurringAmong(keys, s, n)[j]
  {
    hide Occurrences;
    if keys != [] {
      GroupFalls(keys[1..], s, n);
      OccurringCount(keys[1..], s, n);
      var rest := OccurringAmong(keys[1..], s, n);
      forall i | 0 <= i < |rest| ensures rest[i] < keys[0] { assert rest[i] in rest; }
    }
  }

  /** Which pattern the counts show, by the groups that are not empty. */
  lemma PatternByGroups(r: seq<int>)
    requires |r| == 5
    ensures var c := CounterOf(r);
            && FivePattern(c.counts) && |c.quads| <= 1 && |c.trips| <= 1 && |c.pairs| <= 2
            && (c.counts == [4, 1] <==> c.quads != [])
            && (c.counts == [3, 2] <==> c.trips != [] && c.pairs != [])
            && (c.counts == [3, 1, 1] <==> c.trips != [] && c.pairs == [])
            && (c.counts == [2, 2, 1] <==> |c.pairs| == 2)
            && (c.counts == [2, 1, 1, 1] <==> |c.pairs| == 1 && c.trips == [])
  {
    hide CountValues, Occurring;
    FiveCardPatterns(r);
    OccurringLength(r, 4);
    OccurringLength(r, 3);
    OccurringLength(r, 2);
    var counts := CountValues(r);
    if counts == [5] {
      assert multiset(counts) == multiset{5};
    } else if counts == [1, 1, 1, 1, 1] {
      assert multiset(counts) == multiset{1, 1, 1, 1, 1};
    }
  }

  // ---------------------------------------------------------------- suits and straights

  lemma FlushIsOneSuit(cards: seq<Card>)
    requires cards != []
    ensures IsFlush(cards) <==> OneSuit(cards)
  {
    assert cards[0] in cards && cards[0].suit in Suits(cards);
    if IsFlush(cards) {
      var s :| Suits(cards) == {s} by { SingleSuit(Suits(cards)); }
      forall i | 0 <= i < |cards| ensures cards[i].suit == s {
        assert cards[i] in cards && cards[i].suit in Suits(cards);
      }
    }
    if OneSuit(cards) {
      assert Suits(cards) == {cards[0].suit};
    }
  }

  lemma SingleSuit(s: set<Suit>)
    requires |s| == 1
    ensures exists x :: s == {x}
  {
    var x :| x in s;
    assert |s - {x}| == 0;
    assert s == {x};
  }

  lemma FallingRun(r: seq<int>, high: int)
    requires |r| == 5 && Descending(r)
    ensures (forall x :: x in r <==> high - 4 <= x <= high) <==> Consecutive(r) && r[0] == high
  {
    if Consecutive(r) && r[0] == high {
      ConsecutiveRanks(r);
    }
    if forall x :: x in r <==> high - 4 <= x <= high {
      assert high in r && high - 1 in r && high - 2 in r && high - 3 in r && high - 4 in r;
      forall i | 0 <= i < 5 ensures r[i] <= high { assert r[i] in r; }
    }
  }

  lemma FallingWheel(r: seq<int>)
    requires |r| == 5 && Descending(r)
    ensures (forall x :: x in r <==> x == 14 || 2 <= x <= 5) <==> IsWheel(r)
  {
    if forall x :: x in r <==> x == 14 || 2 <= x <= 5 {
      assert 14 in r && 5 in r && 4 in r && 3 in r && 2 in r;
      forall i | 0 <= i < 5 ensures r[i] == 14 || 2 <= r[i] <= 5 { assert r[i] in r; }
    }
  }

  /** The straight test and the highest card of a straight, on the cards. */
  lemma RunIsStraight(cards: seq<Card>)
    requires |cards| == 5
    ensures var r := SortedRanks(cards);
            && (IsStraight(r) <==> Run(cards)) && (IsWheel(r) <==> AceToFive(cards))
            && (forall high :: InARow(cards, high) <==> Consecutive(r) && r[0] == high)
            && (IsStraight(r) && !IsWheel(r) ==> InARow(cards, r[0]))
            && (IsBroadway(r) <==> InARow(cards, 14))
  {
    hide Held, IsStraight, SortDescending;
    var r := SortedRanks(cards);
    StraightMeaning(r);
    forall x ensures x in r <==> Held(cards, x) >= 1 { HeldIsOccurrences(cards, x); }
    FallingWheel(r);
    forall high ensures InARow(cards, high) <==> Consecutive(r) && r[0] == high { FallingRun(r, high); }
    BroadwayIsConsecutive(r);
    if Consecutive(r) { assert InARow(cards, r[0]); }
  }

  lemma BroadwayIsConsecutive(r: seq<int>)
    requires |r| == 5
    ensures IsBroadway(r) <==> Consecutive(r) && r[0] == 14
  {
    ConsecutiveRanks(r);
  }

  // ---------------------------------------------------------------- groups

  /** The groups of the counter are the ranks held by four, three, two cards and by one. */
  lemma GroupsOnCards(cards: seq<Card>)
    requires |cards| == 5
    ensures var c := CounterOf(SortedRanks(cards));
            && (forall x :: x in c.quads <==> Held(cards, x) == 4)
            && (forall x :: x in c.trips <==> Held(cards, x) == 3)
            && (forall x :: x in c.pairs <==> Held(cards, x) == 2)
            && (forall x :: x in c.singles <==> Held(cards, x) == 1)
            && Falls(c.pairs) && Falls(c.singles)
  {
    hide Held, Occurring, SortDescending, Keys, OccurringAmong, Occurrences;
    var r := SortedRanks(cards);
    GroupIs(r, 4);
    GroupIs(r, 3);
    GroupIs(r, 2);
    GroupIs(r, 1);
    forall x ensures Held(cards, x) == Occurrences(r, x) { HeldIsOccurrences(cards, x); }
    assert Falls(Occurring(r, 2)) && Falls(Occurring(r, 1)) by { GroupsFall(r); }
  }

  predicate Falls(s: seq<int>) {
    forall i, j :: 0 <= i < j < |s| ==> s[i] > s[j]
  }

  lemma GroupsFall(r: seq<int>)
    requires Descending(r)
    ensures Falls(Occurring(r, 2)) && Falls(Occurring(r, 1))
  {
    hide Occurrences, OccurringAmong;
    KeysFall(r);
    GroupFalls(Keys(r), r, 2);
    GroupFalls(Keys(r), r, 1);
  }

  /** Which groups there are, by what the cards hold. */
  lemma GroupsByCards(cards: seq<Card>)
    requires |cards| == 5
    ensures var c := CounterOf(SortedRanks(cards));
            && (c.quads != [] <==> HasGroup(cards, 4)) && (c.trips != [] <==> HasGroup(cards, 3))
            && (c.pairs != [] <==> HasGroup(cards, 2)) && (|c.pairs| >= 2 <==> HasTwoPairs(cards))
  {
    hide Held, CounterOf;
    var c := CounterOf(SortedRanks(cards));
    GroupsOnCards(cards);
    GroupIsHeld(cards, c.quads, 4);
    GroupIsHeld(cards, c.trips, 3);
    GroupIsHeld(cards, c.pairs, 2);
    if |c.pairs| >= 2 {
      assert c.pairs[0] in c.pairs && c.pairs[1] in c.pairs && c.pairs[0] > c.pairs[1];
    }
    if r, s :| r != s && Held(cards, r) == 2 && Held(cards, s) == 2 {
      assert r in c.pairs && s in c.pairs;
    }
  }

  lemma GroupIsHeld(cards: seq<Card>, group: seq<int>, n: nat)
    requires forall x :: x in group <==> Held(cards, x) == n
    ensures group != [] <==> HasGroup(cards, n)
  {
    hide Held;
    if group != [] { assert group[0] in group && Held(cards, group[0]) == n; }
    if r :| Held(cards, r) == n { assert r in group; }
  }

  // ---------------------------------------------------------------- categories

  /** The branches of the classifiers, by the groups of the counter. */
  lemma BranchCategories(r: seq<int>, c: Counter, isFlush: bool, isStraight: bool, isRoyal: bool)
    requires |r| == 5 && Coherent(c) && FivePattern(c.counts) && (isRoyal ==> isFlush && isStraight)
    requires isStraight ==> c.counts == [1, 1, 1, 1, 1]
    ensures var rank := Classify(r, c, isFlush, isStraight, isRoyal).rank;
            && (rank == RoyalFlush <==> isRoyal)
            && (rank == StraightFlush <==> isFlush && isStraight && !isRoyal)
            && (rank == FourOfAKind <==> c.counts == [4, 1])
            && (rank == FullHouse <==> c.counts == [3, 2])
            && (rank == Flush <==> isFlush && !isStraight && c.counts != [4, 1] && c.counts != [3, 2])
            && (rank == Straight <==> isStraight && !isFlush)
            && (rank == ThreeOfAKind <==> !isFlush && c.counts == [3, 1, 1])
            && (rank == TwoPair <==> !isFlush && c.counts == [2, 2, 1])
            && (rank == OnePair <==> !isFlush && c.counts == [2, 1, 1, 1])
            && (rank == HighCard <==> !isFlush && !isStraight && (c.counts == [5] || c.counts == [1, 1, 1, 1, 1]))
  {
  }

  /** A straight has five different ranks. */
  lemma StraightHasNoGroups(r: seq<int>)
    requires |r| == 5 && Descending(r) && IsStraight(r)
    ensures CountValues(r) == [1, 1, 1, 1, 1]
  {
    hide CountValues, IsStraight;
    StraightMeaning(r);
    if Consecutive(r) { ConsecutiveRanks(r); }
    DistinctCounts(r);
  }

  lemma CategoryOf(cards: seq<Card>, isRoyal: bool)
    requires |cards| == 5
    requires isRoyal ==> OneSuit(cards) && Run(cards)
    ensures var r := SortedRanks(cards);
            var rank := Classify(r, CounterOf(r), IsFlush(cards), IsStraight(r), isRoyal).rank;
            && CategoryFits(rank, cards) && (rank == RoyalFlush <==> isRoyal)
            && (rank == StraightFlush <==> OneSuit(cards) && Run(cards) && !isRoyal)
  {
    hide Classify, HasGroup, HasTwoPairs, OneSuit, Run, IsFlush, IsStraight, CounterOf, SortDescending;
    var r := SortedRanks(cards);
    var c := CounterOf(r);
    FlushIsOneSuit(cards);
    RunIsStraight(cards);
    PatternByGroups(r);
    GroupsByCards(cards);
    assert IsStraight(r) ==> c.counts == [1, 1, 1, 1, 1] by {
      if IsStraight(r) { StraightHasNoGroups(r); CountsOfCounter(r); }
    }
    BranchCategories(r, c, IsFlush(cards), IsStraight(r), isRoyal);
  }

  lemma CountsOfCounter(r: seq<int>)
    ensures CounterOf(r).counts == CountValues(r)
  {
  }

  // ---------------------------------------------------------------- kickers

  lemma SingleKicker(cards: seq<Card>)
    requires |cards| == 5 && IsStraight(SortedRanks(cards))
    ensures var r := SortedRanks(cards); var high := if IsWheel(r) then 5 else r[0];
            InARow(cards, high) || (AceToFive(cards) && high == 5)
  {
    hide InARow, AceToFive, IsStraight, SortDescending, Run;
    RunIsStraight(cards);
  }

  lemma AllRanks(cards: seq<Card>)
    ensures Descending(SortedRanks(cards)) && forall r: int :: multiset(SortedRanks(cards))[r] == Held(cards, r)
  {
    hide Held;
    forall r: int ensures multiset(SortedRanks(cards))[r] == Held(cards, r) { HeldIsOccurrences(cards, r); }
  }

  lemma FallingIsSorted(s: seq<int>)
    requires Falls(s)
    ensures SortDescending(s) == s
  {
    SortIs(s, s);
  }

  lemma MembersHeld(cards: seq<Card>, group: seq<int>, n: nat)
    requires forall x :: x in group <==> Held(cards, x) == n
    ensures forall i :: 0 <= i < |group| ==> Held(cards, group[i]) == n
  {
    hide Held;
    forall i | 0 <= i < |group| ensures Held(cards, group[i]) == n { assert group[i] in group; }
  }

  /** The kickers of the branches that read them off the groups. */
  lemma GroupKickers(cards: seq<Card>, isFlush: bool, isStraight: bool, isRoyal: bool)
    requires |cards| == 5
    ensures var r := SortedRanks(cards); var h := Classify(r, CounterOf(r), isFlush, isStraight, isRoyal);
            h.rank in {FourOfAKind, FullHouse, ThreeOfAKind, TwoPair, OnePair} ==> KickersFit(h, cards)
  {
    hide Held, CounterOf, SortDescending;
    var r := SortedRanks(cards);
    var c := CounterOf(r);
    GroupsOnCards(cards);
    MembersHeld(cards, c.quads, 4);
    MembersHeld(cards, c.trips, 3);
    MembersHeld(cards, c.pairs, 2);
    MembersHeld(cards, c.singles, 1);
    FallingIsSorted(c.pairs);
    FallingIsSorted(c.singles);
  }

  lemma OtherKickers(cards: seq<Card>, isRoyal: bool)
    requires |cards| == 5
    ensures var r := SortedRanks(cards); var h := Classify(r, CounterOf(r), IsFlush(cards), IsStraight(r), isRoyal);
            h.rank in {RoyalFlush, StraightFlush, Flush, Straight, HighCard} ==> KickersFit(h, cards)
  {
    hide Held, CounterOf, SortDescending, IsStraight, IsFlush, InARow, AceToFive;
    var r := SortedRanks(cards);
    if IsStraight(r) { SingleKicker(cards); }
    AllRanks(cards);
  }

  // ---------------------------------------------------------------- the classifiers

  /**
   * What a result of the program says of the five cards: four cards of one rank are four of a kind, and so on for every
   * category, and the kickers are the ranks that count, in order. Its royal flushes are ten to ace and ace to five of
   * one suit.
   */
  lemma ProgramMeans(cards: seq<Card>)
    requires |cards| == 5
    ensures var h := EvaluateFive(cards);
            && CategoryFits(h.rank, cards) && KickersFit(h, cards)
            && (h.rank == RoyalFlush <==> OneSuit(cards) && (InARow(cards, 14) || AceToFive(cards)))
            && (h.rank == StraightFlush <==> OneSuit(cards) && Run(cards) && !InARow(cards, 14) && !AceToFive(cards))
  {
    hide Classify, CounterOf, IsStraight, IsFlush, Held, SortDescending, CategoryFits, KickersFit, InARow, AceToFive;
    var r := SortedRanks(cards);
    RunIsStraight(cards);
    FlushIsOneSuit(cards);
    RoyalTests(r, IsFlush(cards));
    var isRoyal := ProgramCallsRoyal(r, IsFlush(cards));
    CategoryOf(cards, isRoyal);
    GroupKickers(cards, IsFlush(cards), IsStraight(r), isRoyal);
    OtherKickers(cards, isRoyal);
  }

  /** The same of the tutorial copy, whose royal flushes are ten to ace of one suit alone. */
  lemma TutorialMeans(cards: seq<Card>)
    requires |cards| == 5
    ensures var h := TutorialFive(cards);
            && CategoryFits(h.rank, cards) && KickersFit(h, cards)
            && (h.rank == RoyalFlush <==> OneSuit(cards) && InARow(cards, 14))
            && (h.rank == StraightFlush <==> OneSuit(cards) && Run(cards) && !InARow(cards, 14))
  {
    hide Classify, CounterOf, IsStraight, IsFlush, Held, SortDescending, CategoryFits, KickersFit, InARow, AceToFive;
    var r := SortedRanks(cards);
    RunIsStraight(cards);
    FlushIsOneSuit(cards);
    RoyalTests(r, IsFlush(cards));
    var isRoyal := TutorialCallsRoyal(r, IsFlush(cards));
    CategoryOf(cards, isRoyal);
    GroupKickers(cards, IsFlush(cards), IsStraight(r), isRoyal);
    OtherKickers(cards, isRoyal);
  }

  /** With fewer than five cards the result is a high card, with all ranks as kickers, falling. */
  lemma FewCardsMean(e: Evaluator, cards: seq<Card>)
    requires 1 <= |cards| < 5
    ensures BestHand(e, cards).Some? && BestHand(e, cards).value.rank == HighCard
    ensures KickersFit(BestHand(e, cards).value, cards)
  {
    hide Held;
    AllRanks(cards);
  }
}
