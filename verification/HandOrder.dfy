/** Hand results and the comparisons the program makes between them (poker/evaluator.py). */
module HandOrder {

  // ---------------------------------------------------------------- lists compared as Python compares them

  /** `a < b` on whole lists. */
  predicate LexLess(a: seq<int>, b: seq<int>) {
    if b == [] then false
    else if a == [] then true
    else a[0] < b[0] || (a[0] == b[0] && LexLess(a[1..], b[1..]))
  }

  /** The element-wise loop over `zip(a, b)`: the shorter list decides where it stops. */
  predicate ZipLess(a: seq<int>, b: seq<int>) {
    if a == [] || b == [] then false
    else if a[0] != b[0] then a[0] < b[0]
    else ZipLess(a[1..], b[1..])
  }

  lemma {:induction false} LexIsTotal(a: seq<int>, b: seq<int>)
    ensures LexLess(a, b) || LexLess(b, a) || a == b
    ensures !(LexLess(a, b) && LexLess(b, a)) && !LexLess(a, a)
  {
    if a != [] { LexIsTotal(a[1..], if b == [] then [] else b[1..]); }
    if a != [] && b != [] && a[0] == b[0] && a[1..] == b[1..] {
      assert a == [a[0]] + a[1..] == b;
    }
  }

  lemma {:induction false} LexIsTransitive(a: seq<int>, b: seq<int>, c: seq<int>)
    requires !LexLess(b, a) && !LexLess(c, b)
    ensures !LexLess(c, a)
  {
    if a != [] && b != [] && c != [] && a[0] == b[0] == c[0] {
      LexIsTransitive(a[1..], b[1..], c[1..]);
    }
  }

  lemma {:induction false} ZipIsLex(a: seq<int>, b: seq<int>)
    requires |a| == |b|
    ensures ZipLess(a, b) == LexLess(a, b)
  {
    if a != [] { ZipIsLex(a[1..], b[1..]); }
  }

  // ---------------------------------------------------------------- hand results

  datatype HandRank =
    | HighCard | OnePair | TwoPair | ThreeOfAKind | Straight
    | Flush | FullHouse | FourOfAKind | StraightFlush | RoyalFlush
  {
    function Value(): (v: int)
      ensures 1 <= v <= 10
    {
      match this
      case HighCard => 1 case OnePair => 2 case TwoPair => 3 case ThreeOfAKind => 4 case Straight => 5
      case Flush => 6 case FullHouse => 7 case FourOfAKind => 8 case StraightFlush => 9 case RoyalFlush => 10
    }
  }

  datatype HandResult = HandResult(rank: HandRank, kickers: seq<int>)

  /** `HandResult.__lt__`. */
  predicate HandLess(a: HandResult, b: HandResult) {
    if a.rank.Value() != b.rank.Value() then a.rank.Value() < b.rank.Value()
    else ZipLess(a.kickers, b.kickers)
  }

  /** `HandEvaluator.compare_hands`: 1, -1 or 0. */
  function CompareHands(a: HandResult, b: HandResult): int {
    if a.rank.Value() > b.rank.Value() then 1
    else if a.rank.Value() < b.rank.Value() then -1
    else if ZipLess(b.kickers, a.kickers) then 1
    else if ZipLess(a.kickers, b.kickers) then -1
    else 0
  }

  /** The test the showdown makes: rank first, then the kicker lists compared as wholes. */
  predicate Beats(a: HandResult, b: HandResult) {
    a.rank.Value() > b.rank.Value() || (a.rank.Value() == b.rank.Value() && LexLess(b.kickers, a.kickers))
  }

  /** How many kickers an evaluated five-card hand of each rank carries. */
  function KickerCount(r: HandRank): nat {
    match r
    case RoyalFlush => 1 case StraightFlush => 1 case FourOfAKind => 2 case FullHouse => 2 case Flush => 5
    case Straight => 1 case ThreeOfAKind => 3 case TwoPair => 3 case OnePair => 4 case HighCard => 5
  }

  predicate Evaluated(h: HandResult) {
    |h.kickers| == KickerCount(h.rank)
  }

  lemma ValueIsInjective(a: HandRank, b: HandRank)
    ensures a.Value() == b.Value() <==> a == b
  {
  }

  /** `Beats` is a strict total order on results. */
  lemma BeatsIsTotal(a: HandResult, b: HandResult)
    ensures Beats(a, b) || Beats(b, a) || a == b
    ensures !(Beats(a, b) && Beats(b, a)) && !Beats(a, a)
  {
    LexIsTotal(a.kickers, b.kickers);
    ValueIsInjective(a.rank, b.rank);
  }

  lemma BeatsIsTransitive(a: HandResult, b: HandResult, c: HandResult)
    requires !Beats(a, b) && !Beats(b, c)
    ensures !Beats(a, c)
  {
    if a.rank.Value() == b.rank.Value() == c.rank.Value() {
      LexIsTransitive(a.kickers, b.kickers, c.kickers);
    }
  }

  /** On evaluated hands the three comparisons of the program are one and the same order. */
  lemma ComparisonsAgree(a: HandResult, b: HandResult)
    requires Evaluated(a) && Evaluated(b)
    ensures HandLess(a, b) <==> Beats(b, a)
    ensures CompareHands(a, b) == 1 <==> Beats(a, b)
    ensures CompareHands(a, b) == -1 <==> Beats(b, a)
    ensures CompareHands(a, b) == 0 <==> a == b
  {
    ValueIsInjective(a.rank, b.rank);
    if a.rank == b.rank {
      ZipIsLex(a.kickers, b.kickers);
      ZipIsLex(b.kickers, a.kickers);
    }
    BeatsIsTotal(a, b);
  }

  /** The categories from the weakest to the strongest. */
  lemma CategoriesRise()
    ensures HighCard.Value() < OnePair.Value() < TwoPair.Value() < ThreeOfAKind.Value() < Straight.Value()
    ensures Straight.Value() < Flush.Value() < FullHouse.Value() < FourOfAKind.Value() < StraightFlush.Value()
    ensures StraightFlush.Value() < RoyalFlush.Value()
  {
  }

  lemma {:induction false} FirstDifference(a: seq<int>, b: seq<int>)
    requires |a| == |b|
    ensures LexLess(a, b) <==> exists k :: 0 <= k < |a| && a[k] < b[k] && a[..k] == b[..k]
  {
    if a != [] {
      FirstDifference(a[1..], b[1..]);
      if k :| 0 <= k < |a| && a[k] < b[k] && a[..k] == b[..k] {
        if k > 0 {
          assert a[1..][k - 1] == a[k] && b[1..][k - 1] == b[k] && a[0] == a[..k][0] == b[..k][0];
          assert a[1..][..k - 1] == a[..k][1..] && b[1..][..k - 1] == b[..k][1..];
        }
      }
      if LexLess(a, b) {
        if a[0] < b[0] {
          assert a[..0] == b[..0];
        } else {
          var k :| 0 <= k < |a[1..]| && a[1..][k] < b[1..][k] && a[1..][..k] == b[1..][..k];
          assert a[..k + 1] == [a[0]] + a[1..][..k] && b[..k + 1] == [b[0]] + b[1..][..k];
          assert a[k + 1] < b[k + 1];
        }
      }
    }
  }

  /** A hand beats another of a lower category, or of the same one if it is ahead where their kickers first differ. */
  lemma BeatsMeans(a: HandResult, b: HandResult)
    requires Evaluated(a) && Evaluated(b)
    ensures Beats(a, b) <==>
              || a.rank.Value() > b.rank.Value()
              || (a.rank == b.rank
                  && exists k :: 0 <= k < |a.kickers|
                       && a.kickers[k] > b.kickers[k] && a.kickers[..k] == b.kickers[..k])
  {
    hide LexLess;
    ValueIsInjective(a.rank, b.rank);
    if a.rank == b.rank {
      FirstDifference(b.kickers, a.kickers);
      assert |a.kickers| == |b.kickers|;
      if k :| 0 <= k < |a.kickers| && a.kickers[k] > b.kickers[k] && a.kickers[..k] == b.kickers[..k] {
        assert b.kickers[k] < a.kickers[k] && b.kickers[..k] == a.kickers[..k];
      }
      if k :| 0 <= k < |b.kickers| && b.kickers[k] < a.kickers[k] && b.kickers[..k] == a.kickers[..k] {
        assert a.kickers[k] > b.kickers[k] && a.kickers[..k] == b.kickers[..k];
      }
    }
  }
}
