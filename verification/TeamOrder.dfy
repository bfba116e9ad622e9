/** The padded tuples of the team1 tool order hands as the (rank, kickers) results of the tutorial copy do. */
module TeamOrder {
  import opened Prelude
  import opened Cards
  import opened HandOrder
  import opened RankCounting
  import opened FiveCards
  import opened FiveCardAgreement

  function Padding(n: int): (p: seq<int>)
    ensures |p| == Max(n, 0) && forall i :: 0 <= i < |p| ==> p[i] == -1
  {
    if n <= 0 then [] else seq(n, i => -1)
  }

  /** The tuple that is compared: padded with -1 to seven entries (eight if there are five kickers). */
  function Padded(t: TeamScore): seq<int> {
    [t.rank, t.primary, t.secondary] + (t.kickers + Padding(4 - |t.kickers|))
  }

  predicate TeamLess(a: TeamScore, b: TeamScore) {
    LexLess(Padded(a), Padded(b))
  }

  lemma HigherRankWins(a: TeamScore, b: TeamScore)
    requires a.rank < b.rank
    ensures TeamLess(a, b)
  {
    assert Padded(a)[0] == a.rank && Padded(b)[0] == b.rank;
  }

  lemma LexStep(x: int, a: seq<int>, y: int, b: seq<int>)
    ensures LexLess([x] + a, [y] + b) <==> x < y || (x == y && LexLess(a, b))
  {
    assert ([x] + a)[1..] == a && ([y] + b)[1..] == b;
  }

  lemma {:induction false} LexTail(a: seq<int>, b: seq<int>, c: seq<int>)
    requires |a| == |b|
    ensures LexLess(a + c, b + c) <==> LexLess(a, b)
  {
    if a == [] {
      LexIsTotal(c, c);
      assert a + c == c == b + c;
    } else {
      LexTail(a[1..], b[1..], c);
      assert (a + c)[1..] == a[1..] + c && (b + c)[1..] == b[1..] + c;
    }
  }

  lemma {:induction false} LexShift(a: seq<int>, b: seq<int>, d: int)
    requires |a| == |b|
    ensures LexLess(Shift(a, d), Shift(b, d)) <==> LexLess(a, b)
  {
    if a != [] {
      LexShift(a[1..], b[1..], d);
      assert Shift(a, d)[1..] == Shift(a[1..], d) && Shift(b, d)[1..] == Shift(b[1..], d);
    }
  }

  lemma TeamLessByParts(a: TeamScore, b: TeamScore)
    requires a.rank == b.rank ==> |a.kickers| == |b.kickers|
    ensures TeamLess(a, b) <==>
              || a.rank < b.rank
              || (a.rank == b.rank && (
                    || a.primary < b.primary
                    || (a.primary == b.primary && (
                          || a.secondary < b.secondary
                          || (a.secondary == b.secondary && LexLess(a.kickers, b.kickers))))))
  {
    var a3, b3 := a.kickers + Padding(4 - |a.kickers|), b.kickers + Padding(4 - |b.kickers|);
    var a2, b2 := [a.secondary] + a3, [b.secondary] + b3;
    var a1, b1 := [a.primary] + a2, [b.primary] + b2;
    assert Padded(a) == [a.rank] + a1 && Padded(b) == [b.rank] + b1;
    LexStep(a.rank, a1, b.rank, b1);
    LexStep(a.primary, a2, b.primary, b2);
    LexStep(a.secondary, a3, b.secondary, b3);
    if a.rank == b.rank {
      assert Padding(4 - |a.kickers|) == Padding(4 - |b.kickers|);
      LexTail(a.kickers, b.kickers, Padding(4 - |a.kickers|));
    }
  }

  /** What the tutorial copy can return for five cards. */
  predicate TutorialShaped(h: HandResult) {
    && Evaluated(h)
    && (h.rank == RoyalFlush ==> h.kickers[0] == 14)
    && (h.rank == StraightFlush ==> h.kickers[0] <= 13)
  }

  lemma StraightBelowBroadway(r: seq<int>, isFlush: bool)
    requires |r| == 5 && Descending(r) && r[0] <= 14 && isFlush && IsStraight(r) && !TutorialCallsRoyal(r, isFlush)
    ensures (if IsWheel(r) then 5 else r[0]) <= 13
  {
    RoyalTests(r, isFlush);
    StraightMeaning(r);
    ConsecutiveRanks(r);
  }

  lemma TutorialResultsAreShaped(cards: seq<Card>)
    requires |cards| == 5
    ensures TutorialShaped(TutorialFive(cards))
  {
    var r, isFlush := SortedRanks(cards), IsFlush(cards);
    RanksInRange(cards);
    var isRoyal := TutorialCallsRoyal(r, isFlush);
    ClassifyRoyal(r, CounterOf(r), isFlush, IsStraight(r), isRoyal);
    if Classify(r, CounterOf(r), isFlush, IsStraight(r), isRoyal).rank == StraightFlush {
      ClassifiedStraightFlush(r, CounterOf(r), isFlush, IsStraight(r), isRoyal);
      StraightBelowBroadway(r, isFlush);
    }
  }

  lemma ClassifiedStraightFlush(r: seq<int>, c: Counter, isFlush: bool, isStraight: bool, isRoyal: bool)
    requires |r| == 5 && Coherent(c) && Classify(r, c, isFlush, isStraight, isRoyal).rank == StraightFlush
    ensures !isRoyal && isFlush && isStraight
    ensures Classify(r, c, isFlush, isStraight, isRoyal).kickers == [if IsWheel(r) then 5 else r[0]]
  {
  }

  lemma LexUnfold(a: seq<int>, b: seq<int>)
    requires a != [] && b != []
    ensures LexLess(a, b) <==> a[0] < b[0] || (a[0] == b[0] && LexLess(a[1..], b[1..]))
  {
  }

  lemma LexOne(a: seq<int>, b: seq<int>)
    requires |a| == |b| == 1
    ensures LexLess(a, b) <==> a[0] < b[0]
  {
  }

  /** Translating to team1 tuples keeps and reflects the order of the results. */
  lemma TranslateKeepsOrder(a: HandResult, b: HandResult)
    requires TutorialShaped(a) && TutorialShaped(b)
    ensures TeamLess(Translate(a), Translate(b)) <==> Beats(b, a)
  {
    TeamLessByParts(Translate(a), Translate(b));
    if a.rank == b.rank { SameRankOrder(a, b); }
  }

  lemma SameRankOrder(a: HandResult, b: HandResult)
    requires Evaluated(a) && Evaluated(b) && a.rank == b.rank
    ensures TeamLess(Translate(a), Translate(b)) <==> LexLess(a.kickers, b.kickers)
  {
    var x, y := Translate(a), Translate(b);
    TeamLessByParts(x, y);
    var k, l := Shift(a.kickers, -2), Shift(b.kickers, -2);
    LexShift(a.kickers, b.kickers, -2);
    LexUnfold(k, l);
    LexIsTotal([], []);
    match a.rank {
      case RoyalFlush => LexOne(k, l);
      case StraightFlush => LexOne(k, l);
      case Straight => LexOne(k, l);
      case FourOfAKind => LexOne(k[1..], l[1..]);
      case FullHouse => LexOne(k[1..], l[1..]);
      case TwoPair => LexUnfold(k[1..], l[1..]); assert k[1..][1..] == k[2..] && l[1..][1..] == l[2..];
      case _ =>
    }
  }

  /** Win, lose and tie come out the same in the two tools, for any two five-card hands. */
  lemma TeamDecidesAlike(a: seq<Card>, b: seq<Card>)
    requires |a| == |b| == 5
    ensures TeamLess(TeamFive(a), TeamFive(b)) <==> Beats(TutorialFive(b), TutorialFive(a))
    ensures TeamFive(a) == TeamFive(b) <==> TutorialFive(a) == TutorialFive(b)
  {
    TeamIsTranslation(a);
    TeamIsTranslation(b);
    TutorialResultsAreShaped(a);
    TutorialResultsAreShaped(b);
    TranslateKeepsOrder(TutorialFive(a), TutorialFive(b));
    TranslateKeepsOrder(TutorialFive(b), TutorialFive(a));
    BeatsIsTotal(TutorialFive(a), TutorialFive(b));
    LexIsTotal(Padded(TeamFive(a)), Padded(TeamFive(b)));
  }
}
