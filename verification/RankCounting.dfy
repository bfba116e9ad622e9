/** Sorting, counting and grouping the ranks of a hand: what `sorted`, `set` and `Counter` give the evaluators. */
module RankCounting {
  import opened Cards
  import opened Prelude

  function Ranks(cards: seq<Card>): (r: seq<int>)
    ensures |r| == |cards|
  {
    seq(|cards|, i requires 0 <= i < |cards| => cards[i].rank)
  }

  function Suits(cards: seq<Card>): set<Suit> {
    set c | c in cards :: c.suit
  }

  // ---------------------------------------------------------------- sorting

  predicate Descending(s: seq<int>) {
    forall i, j :: 0 <= i < j < |s| ==> s[i] >= s[j]
  }

  lemma InsertedBelow(x: int, s: seq<int>, rest: seq<int>)
    requires Descending(s) && s != [] && x < s[0]
    requires Descending(rest) && multiset(rest) == multiset(s[1..]) + multiset{x}
    ensures Descending([s[0]] + rest) && multiset([s[0]] + rest) == multiset(s) + multiset{x}
  {
    assert s == [s[0]] + s[1..];
    forall k | 0 <= k < |rest| ensures rest[k] <= s[0] {
      assert rest[k] in multiset(rest);
      assert rest[k] in s[1..] || rest[k] == x;
    }
  }

  function Insert(x: int, s: seq<int>): (r: seq<int>)
    requires Descending(s)
    ensures |r| == |s| + 1
    ensures multiset(r) == multiset(s) + multiset{x}
    ensures Descending(r)
  {
    if s == [] || x >= s[0] then [x] + s
    else
      var rest := Insert(x, s[1..]);
      InsertedBelow(x, s, rest);
      [s[0]] + rest
  }

  function SortDescending(s: seq<int>): (r: seq<int>)
    ensures Descending(r) && |r| == |s|
    ensures multiset(r) == multiset(s)
  {
    if s == [] then [] else
      assert s == [s[0]] + s[1..];
      Insert(s[0], SortDescending(s[1..]))
  }

  lemma TailElements<T>(s: seq<T>)
    requires s != []
    ensures multiset(s[1..]) == multiset(s) - multiset{s[0]}
  {
    assert s == [s[0]] + s[1..];
  }

  lemma FirstIsLargest(s: seq<int>, x: int)
    requires Descending(s) && x in multiset(s)
    ensures s != [] && x <= s[0]
  {
  }

  lemma SameFirst(a: seq<int>, b: seq<int>)
    requires Descending(a) && Descending(b) && multiset(a) == multiset(b) && a != []
    ensures b != [] && a[0] == b[0]
  {
    assert a[0] in multiset(a);
    FirstIsLargest(b, a[0]);
    assert b[0] in multiset(b);
    FirstIsLargest(a, b[0]);
  }

  lemma DescendingTail(a: seq<int>)
    requires Descending(a) && a != []
    ensures Descending(a[1..])
  {
  }

  /** A descending list is determined by its elements. */
  lemma {:induction false} DescendingIsUnique(a: seq<int>, b: seq<int>)
    requires Descending(a) && Descending(b) && multiset(a) == multiset(b)
    ensures a == b
    decreases |a|
  {
    if a == [] {
      assert |multiset(b)| == 0;
    } else {
      SameFirst(a, b);
      DescendingTail(a);
      DescendingTail(b);
      TailElements(a);
      TailElements(b);
      DescendingIsUnique(a[1..], b[1..]);
      SameHeadAndTail(a, b);
    }
  }

  lemma SameHeadAndTail<T>(a: seq<T>, b: seq<T>)
    requires a != [] && b != [] && a[0] == b[0] && a[1..] == b[1..]
    ensures a == b
  {
    assert a == [a[0]] + a[1..] && b == [b[0]] + b[1..];
  }

  lemma RanksWithout(s: seq<Card>, k: nat)
    requires k < |s|
    ensures multiset(Ranks(s)) == multiset(Ranks(s[..k] + s[k + 1..])) + multiset{s[k].rank}
  {
    assert Ranks(s[..k] + s[k + 1..]) == Ranks(s)[..k] + Ranks(s)[k + 1..];
    MiddleElement(Ranks(s), k);
  }

  lemma MiddleElement<T>(s: seq<T>, k: nat)
    requires k < |s|
    ensures multiset(s[..k] + s[k + 1..]) == multiset(s) - multiset{s[k]}
  {
    assert s == s[..k] + [s[k]] + s[k + 1..];
  }

  lemma {:induction false} RanksOfPermutation(a: seq<Card>, b: seq<Card>)
    requires multiset(a) == multiset(b)
    ensures multiset(Ranks(a)) == multiset(Ranks(b))
    decreases |a|
  {
    hide Ranks;
    assert |a| == |multiset(a)| == |multiset(b)| == |b|;
    if a == [] {
      assert a == b;
    } else {
      assert a[0] in multiset(b);
      var k :| 0 <= k < |b| && b[k] == a[0];
      var rest := b[..k] + b[k + 1..];
      assert a[1..] == a[..0] + a[1..];
      assert multiset(a[1..]) == multiset(rest) by {
        TailElements(a);
        MiddleElement(b, k);
      }
      RanksOfPermutation(a[1..], rest);
      RanksWithout(b, k);
      RanksWithout(a, 0);
    }
  }

  // ---------------------------------------------------------------- counting

  /** The keys of a counter: distinct elements in the order of their first occurrence. */
  function Keys(s: seq<int>): seq<int> {
    if s == [] then [] else
      var k := Keys(s[..|s| - 1]);
      if s[|s| - 1] in k then k else k + [s[|s| - 1]]
  }

  function Occurrences(s: seq<int>, x: int): nat {
    if s == [] then 0 else Occurrences(s[..|s| - 1], x) + if s[|s| - 1] == x then 1 else 0
  }

  /** Those of `keys` that occur exactly `n` times in `s`, in the order of `keys`. */
  function OccurringAmong(keys: seq<int>, s: seq<int>, n: nat): seq<int> {
    if keys == [] then []
    else if Occurrences(s, keys[0]) == n then [keys[0]] + OccurringAmong(keys[1..], s, n)
    else OccurringAmong(keys[1..], s, n)
  }

  function Occurring(s: seq<int>, n: nat): seq<int> {
    OccurringAmong(Keys(s), s, n)
  }

  function CountsOf(keys: seq<int>, s: seq<int>): (c: seq<int>)
    ensures |c| == |keys|
  {
    seq(|keys|, i requires 0 <= i < |keys| => Occurrences(s, keys[i]))
  }

  /** The counter's values, largest first. */
  function CountValues(s: seq<int>): seq<int> {
    SortDescending(CountsOf(Keys(s), s))
  }

  predicate CountsMore(x: int, y: int, s: seq<int>) {
    Occurrences(s, x) > Occurrences(s, y) || (Occurrences(s, x) == Occurrences(s, y) && x >= y)
  }

  function InsertByCount(x: int, keys: seq<int>, s: seq<int>): seq<int> {
    if keys == [] || CountsMore(x, keys[0], s) then [x] + keys
    else [keys[0]] + InsertByCount(x, keys[1..], s)
  }

  function SortByCount(keys: seq<int>, s: seq<int>): seq<int> {
    if keys == [] then [] else InsertByCount(keys[0], SortByCount(keys[1..], s), s)
  }

  /** The counter's keys by falling count, equal counts by falling key. */
  function KeysByCount(s: seq<int>): seq<int> {
    SortByCount(Keys(s), s)
  }

  // ---------------------------------------------------------------- what a counter holds

  lemma {:induction false} KeysAreElements(s: seq<int>)
    ensures forall x :: x in Keys(s) <==> x in s
    ensures forall x :: Occurrences(s, x) >= 1 <==> x in s
    ensures forall i, j :: 0 <= i < j < |Keys(s)| ==> Keys(s)[i] != Keys(s)[j]
    ensures forall x :: Occurrences(s, x) <= |s|
  {
    if s != [] {
      KeysAreElements(s[..|s| - 1]);
      assert s == s[..|s| - 1] + [s[|s| - 1]];
    }
  }

  lemma {:induction false} KeysFall(s: seq<int>)
    requires Descending(s)
    ensures forall i, j :: 0 <= i < j < |Keys(s)| ==> Keys(s)[i] > Keys(s)[j]
  {
    if s != [] {
      var p := s[..|s| - 1];
      KeysFall(p);
      KeysAreElements(p);
      forall i | 0 <= i < |Keys(p)| && s[|s| - 1] !in Keys(p) ensures Keys(p)[i] > s[|s| - 1] {
        assert Keys(p)[i] in Keys(p);
      }
    }
  }

  /** The counts add up to the number of elements counted. */
  lemma {:induction false} CountsAddUp(s: seq<int>)
    ensures Sum(CountsOf(Keys(s), s)) == |s|
  {
    if s != [] {
      var p, x := s[..|s| - 1], s[|s| - 1];
      CountsAddUp(p);
      KeysAreElements(p);
      var old_, new_ := CountsOf(Keys(p), p), CountsOf(Keys(s), s);
      if x in Keys(p) {
        var k :| 0 <= k < |Keys(p)| && Keys(p)[k] == x;
        assert new_ == old_[k := old_[k] + 1];
        SumUpdate(old_, k, old_[k] + 1);
      } else {
        assert new_ == old_ + [1];
        assert new_[..|new_| - 1] == old_;
      }
    }
  }

  lemma {:induction false} SumOfInsert(x: int, s: seq<int>)
    requires Descending(s)
    ensures Sum(Insert(x, s)) == x + Sum(s)
  {
    if s == [] || x >= s[0] {
      SumPrepend(x, s);
    } else {
      SumOfInsert(x, s[1..]);
      SumPrepend(s[0], Insert(x, s[1..]));
      SumPrepend(s[0], s[1..]);
      assert s == [s[0]] + s[1..];
    }
  }

  lemma {:induction false} SumOfSorted(s: seq<int>)
    ensures Sum(SortDescending(s)) == Sum(s)
  {
    if s != [] {
      SumOfSorted(s[1..]);
      SumOfInsert(s[0], SortDescending(s[1..]));
      SumPrepend(s[0], s[1..]);
      assert s == [s[0]] + s[1..];
    }
  }

  predicate FivePattern(c: seq<int>) {
    c == [5] || c == [4, 1] || c == [3, 2] || c == [3, 1, 1] || c == [2, 2, 1]
    || c == [2, 1, 1, 1] || c == [1, 1, 1, 1, 1]
  }

  /** Five cards fall into one of seven patterns of equal ranks. */
  lemma FiveCardPatterns(r: seq<int>)
    requires |r| == 5
    ensures FivePattern(CountValues(r))
  {
    var c := CountValues(r);
    CountsAddUp(r);
    SumOfSorted(CountsOf(Keys(r), r));
    KeysAreElements(r);
    forall i | 0 <= i < |c| ensures c[i] >= 1 {
      assert c[i] in multiset(c);
      assert c[i] in CountsOf(Keys(r), r);
      var k :| 0 <= k < |Keys(r)| && CountsOf(Keys(r), r)[k] == c[i];
      assert Keys(r)[k] in r;
    }
    PartitionsOfFive(c);
  }

  lemma PartitionsOfFive(c: seq<int>)
    requires Descending(c) && Sum(c) == 5 && forall i :: 0 <= i < |c| ==> c[i] >= 1
    ensures FivePattern(c)
  {
    hide Sum;
    LengthAtMostSum(c);
    SumOfFew(c);
    if |c| <= 3 {
      FewParts(c);
    } else {
      ManyParts(c);
    }
  }

  lemma FewParts(c: seq<int>)
    requires Descending(c) && 1 <= |c| <= 3 && forall i :: 0 <= i < |c| ==> c[i] >= 1
    requires c[0] + (if |c| > 1 then c[1] else 0) + (if |c| > 2 then c[2] else 0) == 5
    ensures c == [5] || c == [4, 1] || c == [3, 2] || c == [3, 1, 1] || c == [2, 2, 1]
  {
    if |c| == 1 {
      assert c == [5];
    } else if |c| == 2 {
      assert c[0] == 4 || c[0] == 3;
    } else {
      assert c[0] == 3 || c[0] == 2;
    }
  }

  lemma ManyParts(c: seq<int>)
    requires Descending(c) && 4 <= |c| <= 5 && forall i :: 0 <= i < |c| ==> c[i] >= 1
    requires c[0] + c[1] + c[2] + c[3] + (if |c| > 4 then c[4] else 0) == 5
    ensures c == [2, 1, 1, 1] || c == [1, 1, 1, 1, 1]
  {
    if |c| == 4 {
      assert c[0] == 2;
    } else {
      assert c[0] == 1;
    }
  }

  lemma SumOfFew(c: seq<int>)
    requires |c| <= 5
    ensures Sum(c) == (if |c| > 0 then c[0] else 0) + (if |c| > 1 then c[1] else 0) + (if |c| > 2 then c[2] else 0)
                    + (if |c| > 3 then c[3] else 0) + (if |c| > 4 then c[4] else 0)
  {
    if c != [] { SumOfFew(c[..|c| - 1]); }
  }

  lemma {:induction false} LengthAtMostSum(c: seq<int>)
    requires forall i :: 0 <= i < |c| ==> c[i] >= 1
    ensures |c| <= Sum(c)
  {
    if c != [] { LengthAtMostSum(c[..|c| - 1]); }
  }

  /** As many keys occur `n` times as the counter holds the value `n`. */
  lemma {:induction false} OccurringCount(keys: seq<int>, s: seq<int>, n: nat)
    ensures |OccurringAmong(keys, s, n)| == multiset(CountsOf(keys, s))[n]
    ensures forall x :: x in OccurringAmong(keys, s, n) ==> x in keys && Occurrences(s, x) == n
  {
    if keys != [] {
      OccurringCount(keys[1..], s, n);
      assert CountsOf(keys, s) == [Occurrences(s, keys[0])] + CountsOf(keys[1..], s);
      assert keys == [keys[0]] + keys[1..];
    }
  }

  lemma {:induction false} InOccurring(keys: seq<int>, s: seq<int>, x: int)
    requires x in keys
    ensures x in OccurringAmong(keys, s, Occurrences(s, x))
  {
    if x != keys[0] { InOccurring(keys[1..], s, x); }
  }

  lemma OccurringLength(s: seq<int>, n: nat)
    ensures |Occurring(s, n)| == multiset(CountValues(s))[n]
  {
    OccurringCount(Keys(s), s, n);
  }

  // ---------------------------------------------------------------- sorting by count

  /** Keys occurring `m`, then `m - 1`, down to one time. */
  function Grouped(keys: seq<int>, s: seq<int>, m: nat): seq<int> {
    if m == 0 then [] else OccurringAmong(keys, s, m) + Grouped(keys, s, m - 1)
  }

  lemma {:induction false} GroupedMembers(keys: seq<int>, s: seq<int>, m: nat)
    ensures forall x :: x in Grouped(keys, s, m) ==> x in keys && Occurrences(s, x) <= m
  {
    if m > 0 {
      GroupedMembers(keys, s, m - 1);
      OccurringCount(keys, s, m);
    }
  }

  lemma {:induction false} NothingGrouped(s: seq<int>, m: nat)
    ensures Grouped([], s, m) == []
  {
    if m > 0 { NothingGrouped(s, m - 1); }
  }

  lemma {:induction false} InsertPasses(x: int, a: seq<int>, b: seq<int>, s: seq<int>)
    requires forall y :: y in a ==> !CountsMore(x, y, s)
    ensures InsertByCount(x, a + b, s) == a + InsertByCount(x, b, s)
  {
    hide CountsMore;
    if a == [] {
      assert a + b == b;
    } else {
      assert a[0] in a && a == [a[0]] + a[1..];
      InsertPasses(x, a[1..], b, s);
      assert (a + b)[0] == a[0] && (a + b)[1..] == a[1..] + b;
    }
  }

  lemma {:induction false} GroupedIgnores(x: int, rest: seq<int>, s: seq<int>, m: nat)
    requires Occurrences(s, x) > m
    ensures Grouped([x] + rest, s, m) == Grouped(rest, s, m)
  {
    if m > 0 { GroupedIgnores(x, rest, s, m - 1); }
  }

  lemma InsertOnTop(x: int, rest: seq<int>, s: seq<int>, m: nat)
    requires 1 <= m == Occurrences(s, x)
    requires forall y :: y in rest ==> y < x
    ensures InsertByCount(x, Grouped(rest, s, m), s) == [x] + Grouped(rest, s, m)
    ensures Grouped([x] + rest, s, m) == [x] + Grouped(rest, s, m)
  {
    GroupedMembers(rest, s, m);
    var g := Grouped(rest, s, m);
    if g != [] { assert g[0] in g; }
    GroupedIgnores(x, rest, s, m - 1);
    assert ([x] + rest)[1..] == rest;
    var top, lower := OccurringAmong(rest, s, m), Grouped(rest, s, m - 1);
    assert [x] + (top + lower) == ([x] + top) + lower;
  }

  lemma {:induction false} InsertIntoGroups(x: int, rest: seq<int>, s: seq<int>, m: nat)
    requires 1 <= Occurrences(s, x) <= m
    requires forall y :: y in rest ==> y < x
    ensures InsertByCount(x, Grouped(rest, s, m), s) == Grouped([x] + rest, s, m)
  {
    if Occurrences(s, x) == m {
      InsertOnTop(x, rest, s, m);
    } else {
      InsertBelow(x, rest, s, m);
      InsertIntoGroups(x, rest, s, m - 1);
    }
  }

  lemma InsertBelow(x: int, rest: seq<int>, s: seq<int>, m: nat)
    requires Occurrences(s, x) < m
    ensures InsertByCount(x, Grouped(rest, s, m), s)
         == OccurringAmong([x] + rest, s, m) + InsertByCount(x, Grouped(rest, s, m - 1), s)
  {
    assert ([x] + rest)[1..] == rest;
    var a := OccurringAmong(rest, s, m);
    forall y | y in a ensures !CountsMore(x, y, s) { OccurringCount(rest, s, m); }
    InsertPasses(x, a, Grouped(rest, s, m - 1), s);
  }

  /** Sorting falling keys by count lists the keys that occur most often first, equal counts in key order. */
  lemma {:induction false} SortByCountGroups(keys: seq<int>, s: seq<int>, m: nat)
    requires forall i, j :: 0 <= i < j < |keys| ==> keys[i] > keys[j]
    requires forall x :: x in keys ==> 1 <= Occurrences(s, x) <= m
    ensures SortByCount(keys, s) == Grouped(keys, s, m)
  {
    if keys == [] {
      NothingGrouped(s, m);
    } else {
      assert keys[0] in keys && keys == [keys[0]] + keys[1..];
      SortByCountGroups(keys[1..], s, m);
      InsertIntoGroups(keys[0], keys[1..], s, m);
    }
  }

  /** For five falling ranks, not all equal: four of a kind first, then trips, pairs and single cards. */
  lemma KeysByCountOfFive(r: seq<int>)
    requires |r| == 5 && Descending(r) && CountValues(r) != [5]
    ensures KeysByCount(r) == Occurring(r, 4) + (Occurring(r, 3) + (Occurring(r, 2) + Occurring(r, 1)))
  {
    KeysFall(r);
    forall x | x in Keys(r) ensures 1 <= Occurrences(r, x) <= 4 { CountOfKey(r, x); }
    SortByCountGroups(Keys(r), r, 4);
    GroupedInFour(Keys(r), r);
  }

  lemma CountOfKey(r: seq<int>, x: int)
    requires |r| == 5 && x in Keys(r) && CountValues(r) != [5]
    ensures 1 <= Occurrences(r, x) <= 4
  {
    assert Occurrences(r, x) >= 1 by { KeysAreElements(r); }
    KeyCountIsValue(r, x);
    FiveCardPatterns(r);
    SmallCounts(CountValues(r));
  }

  lemma SmallCounts(c: seq<int>)
    requires FivePattern(c) && c != [5]
    ensures forall i :: 0 <= i < |c| ==> c[i] <= 4
  {
  }

  lemma KeyCountIsValue(s: seq<int>, x: int)
    requires x in Keys(s)
    ensures Occurrences(s, x) in CountValues(s)
  {
    var k :| 0 <= k < |Keys(s)| && Keys(s)[k] == x;
    assert CountsOf(Keys(s), s)[k] in multiset(CountsOf(Keys(s), s));
    assert CountsOf(Keys(s), s)[k] in multiset(CountValues(s));
  }

  lemma GroupedInFour(keys: seq<int>, s: seq<int>)
    ensures Grouped(keys, s, 4) == OccurringAmong(keys, s, 4) + (OccurringAmong(keys, s, 3)
                                 + (OccurringAmong(keys, s, 2) + OccurringAmong(keys, s, 1)))
  {
    assert Grouped(keys, s, 0) == [];
    assert Grouped(keys, s, 1) == OccurringAmong(keys, s, 1);
    assert Grouped(keys, s, 2) == OccurringAmong(keys, s, 2) + Grouped(keys, s, 1);
    assert Grouped(keys, s, 3) == OccurringAmong(keys, s, 3) + Grouped(keys, s, 2);
  }

  // ---------------------------------------------------------------- renumbering the ranks

  function Shift(s: seq<int>, d: int): (r: seq<int>)
    ensures |r| == |s| && forall i :: 0 <= i < |s| ==> r[i] == s[i] + d
  {
    seq(|s|, i requires 0 <= i < |s| => s[i] + d)
  }

  lemma {:induction false} ShiftOccurrences(s: seq<int>, d: int, x: int)
    ensures Occurrences(Shift(s, d), x + d) == Occurrences(s, x)
  {
    if s != [] {
      ShiftOccurrences(s[..|s| - 1], d, x);
      assert Shift(s, d)[..|s| - 1] == Shift(s[..|s| - 1], d);
    }
  }

  lemma {:induction false} ShiftKeys(s: seq<int>, d: int)
    ensures Keys(Shift(s, d)) == Shift(Keys(s), d)
  {
    if s != [] {
      var p, x := s[..|s| - 1], s[|s| - 1];
      ShiftKeys(p, d);
      assert Shift(s, d)[..|s| - 1] == Shift(p, d);
      ShiftMember(Keys(p), d, x);
    }
  }

  lemma ShiftMember(s: seq<int>, d: int, x: int)
    ensures x + d in Shift(s, d) <==> x in s
  {
    if x in s {
      var k :| 0 <= k < |s| && s[k] == x;
      assert Shift(s, d)[k] == x + d;
    }
  }

  lemma {:induction false} ShiftAmong(keys: seq<int>, s: seq<int>, d: int, n: nat)
    ensures OccurringAmong(Shift(keys, d), Shift(s, d), n) == Shift(OccurringAmong(keys, s, n), d)
  {
    if keys != [] {
      ShiftAmong(keys[1..], s, d, n);
      ShiftOccurrences(s, d, keys[0]);
      assert Shift(keys, d)[1..] == Shift(keys[1..], d);
    }
  }

  /** Renumbering the ranks changes no count and renumbers every group. */
  lemma ShiftCounter(s: seq<int>, d: int)
    ensures CountValues(Shift(s, d)) == CountValues(s)
    ensures forall n: nat :: Occurring(Shift(s, d), n) == Shift(Occurring(s, n), d)
  {
    ShiftKeys(s, d);
    forall n: nat { ShiftAmong(Keys(s), s, d, n); }
    assert CountsOf(Keys(Shift(s, d)), Shift(s, d)) == CountsOf(Keys(s), s) by {
      forall i | 0 <= i < |Keys(s)| { ShiftOccurrences(s, d, Keys(s)[i]); }
    }
  }

  lemma SortIs(s: seq<int>, t: seq<int>)
    requires Descending(t) && multiset(s) == multiset(t)
    ensures SortDescending(s) == t
  {
    DescendingIsUnique(SortDescending(s), t);
  }
}
