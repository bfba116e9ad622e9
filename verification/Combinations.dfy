/** `itertools.combinations`: all ways to choose k elements, in the order of their positions. */
module Combinations {

  function Prepend<T>(x: T, lists: seq<seq<T>>): (r: seq<seq<T>>)
    ensures |r| == |lists| && forall i :: 0 <= i < |lists| ==> r[i] == [x] + lists[i]
  {
    seq(|lists|, i requires 0 <= i < |lists| => [x] + lists[i])
  }

  function Choose<T>(s: seq<T>, k: nat): (r: seq<seq<T>>)
    ensures forall i :: 0 <= i < |r| ==> |r[i]| == k
    decreases |s|
  {
    if k == 0 then [[]]
    else if s == [] then []
    else Prepend(s[0], Choose(s[1..], k - 1)) + Choose(s[1..], k)
  }

  /** Every choice takes its elements, with their multiplicity, from the list. */
  lemma {:induction false} ChoicesAreContained<T>(s: seq<T>, k: nat, i: nat)
    requires i < |Choose(s, k)|
    ensures multiset(Choose(s, k)[i]) <= multiset(s)
    decreases |s|
  {
    if k > 0 && s != [] {
      var first := Choose(s[1..], k - 1);
      assert s == [s[0]] + s[1..];
      if i < |first| {
        ChoicesAreContained(s[1..], k - 1, i);
      } else {
        ChoicesAreContained(s[1..], k, i - |first|);
      }
    }
  }

  lemma ChosenFirst<T>(s: seq<T>, k: nat, i: nat, m: multiset<T>)
    requires s != [] && k > 0 && s[0] in m
    requires i < |Choose(s[1..], k - 1)| && multiset(Choose(s[1..], k - 1)[i]) == m - multiset{s[0]}
    ensures i < |Choose(s, k)| && multiset(Choose(s, k)[i]) == m
  {
    var c := Choose(s[1..], k - 1)[i];
    assert Choose(s, k)[i] == [s[0]] + c;
    assert multiset([s[0]] + c) == multiset{s[0]} + multiset(c);
  }

  lemma ChosenLater<T>(s: seq<T>, k: nat, i: nat)
    requires s != [] && k > 0 && i < |Choose(s[1..], k)|
    ensures |Choose(s[1..], k - 1)| + i < |Choose(s, k)|
    ensures Choose(s, k)[|Choose(s[1..], k - 1)| + i] == Choose(s[1..], k)[i]
  {
  }

  lemma FirstOrRest<T>(s: seq<T>, m: multiset<T>)
    requires s != [] && m <= multiset(s)
    ensures s[0] in m ==> m - multiset{s[0]} <= multiset(s[1..]) && |m - multiset{s[0]}| == |m| - 1
    ensures s[0] !in m ==> m <= multiset(s[1..])
  {
    assert s == [s[0]] + s[1..];
  }

  /** Every sub-multiset of the right size is chosen. */
  lemma {:induction false} EveryChoiceOccurs<T>(s: seq<T>, k: nat, m: multiset<T>) returns (i: nat)
    requires m <= multiset(s) && |m| == k
    ensures i < |Choose(s, k)| && multiset(Choose(s, k)[i]) == m
    decreases |s|
  {
    hide Choose;
    if k == 0 {
      i := 0;
      NothingChosen(s);
    } else {
      FirstOrRest(s, m);
      if s[0] in m {
        i := EveryChoiceOccurs(s[1..], k - 1, m - multiset{s[0]});
        ChosenFirst(s, k, i, m);
      } else {
        i := EveryChoiceOccurs(s[1..], k, m);
        ChosenLater(s, k, i);
        i := |Choose(s[1..], k - 1)| + i;
      }
    }
  }

  lemma NothingChosen<T>(s: seq<T>)
    ensures Choose(s, 0) == [[]] && multiset(Choose(s, 0)[0]) == multiset{}
  {
  }

  lemma {:induction false} EnoughToChoose<T>(s: seq<T>, k: nat)
    requires k <= |s|
    ensures Choose(s, k) != []
  {
    if k > 0 { EnoughToChoose(s[1..], k - 1); }
  }
}
