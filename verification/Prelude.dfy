/** Options, integer sums and the cyclic seat arithmetic shared by the other modules. */
module Prelude {

  datatype Option<+T> = None | Some(value: T)

  function Min(a: int, b: int): int { if a <= b then a else b }

  function Max(a: int, b: int): int { if a <= b then b else a }

  // ---------------------------------------------------------------- lists of ids

  predicate Ascending(s: seq<nat>) {
    forall i, j :: 0 <= i < j < |s| ==> s[i] < s[j]
  }

  predicate Under(ids: seq<nat>, n: nat) {
    forall k :: 0 <= k < |ids| ==> ids[k] < n
  }

  /** The position of `x` in a list without repetitions. */
  function IndexOf(s: seq<nat>, x: nat): (k: nat)
    requires x in s
    ensures k < |s| && s[k] == x
  {
    if s[|s| - 1] == x then |s| - 1
    else
      assert s == s[..|s| - 1] + [s[|s| - 1]];
      IndexOf(s[..|s| - 1], x)
  }

  lemma SubsetSize(a: set<nat>, b: set<nat>)
    requires a <= b
    ensures |a| <= |b|
  {
    assert b == a + (b - a);
  }

  // ---------------------------------------------------------------- sums

  function Sum(s: seq<int>): int {
    if s == [] then 0 else Sum(s[..|s| - 1]) + s[|s| - 1]
  }

  lemma {:induction false} SumUpdate(s: seq<int>, k: nat, v: int)
    requires k < |s|
    ensures Sum(s[k := v]) == Sum(s) - s[k] + v
  {
    var p := s[..|s| - 1];
    if k == |s| - 1 {
      assert s[k := v][..k] == p;
    } else {
      assert s[k := v][..|s| - 1] == p[k := v];
      SumUpdate(p, k, v);
    }
  }

  lemma {:induction false} SumIsNonNegative(s: seq<int>)
    requires forall i :: 0 <= i < |s| ==> s[i] >= 0
    ensures Sum(s) >= 0
    ensures forall i :: 0 <= i < |s| ==> s[i] <= Sum(s)
  {
    if s != [] {
      SumIsNonNegative(s[..|s| - 1]);
      forall i | 0 <= i < |s| ensures s[i] <= Sum(s) {
        if i < |s| - 1 { assert s[i] == s[..|s| - 1][i]; }
      }
    }
  }

  lemma {:induction false} SumPrepend(x: int, s: seq<int>)
    ensures Sum([x] + s) == x + Sum(s)
  {
    if s == [] {
      assert [x] + s == [x] && Sum([x]) == Sum([]) + x;
    } else {
      SumPrepend(x, s[..|s| - 1]);
      assert ([x] + s)[..|s|] == [x] + s[..|s| - 1];
    }
  }

  /** Sums add up position by position. */
  lemma {:induction false} SumAdds(a: seq<int>, b: seq<int>, c: seq<int>)
    requires |a| == |b| == |c|
    requires forall i :: 0 <= i < |a| ==> c[i] == a[i] + b[i]
    ensures Sum(c) == Sum(a) + Sum(b)
  {
    if a != [] {
      SumAdds(a[..|a| - 1], b[..|a| - 1], c[..|a| - 1]);
    }
  }

  // ---------------------------------------------------------------- seats in a circle

  /** `x mod n` for the range the seat scans use. */
  function Wrap(x: nat, n: nat): (r: nat)
    requires x < 2 * n
    ensures r < n
  {
    if x < n then x else x - n
  }

  lemma WrapIsModulo(x: nat, n: nat)
    requires 0 < n && x < 2 * n
    ensures x % n == Wrap(x, n)
  {
    if x >= n {
      ModuloIsUnique(x, n, 1, x - n);
    } else {
      ModuloIsUnique(x, n, 0, x);
    }
  }

  lemma ModuloIsUnique(x: nat, n: nat, q: int, r: int)
    requires n > 0 && 0 <= r < n && x == q * n + r
    ensures x % n == r && x / n == q
  {
    var q', r' := x / n, x % n;
    assert x == q' * n + r';
    if q < q' {
      MulAtLeast(q' - q, n);
    } else if q' < q {
      MulAtLeast(q - q', n);
    }
    assert (q - q') * n == r' - r;
  }

  lemma OneMoreTime(m: nat, q: nat)
    ensures (m + 1) * q == m * q + q
  {
  }

  lemma MulAtLeast(k: int, n: nat)
    requires k >= 1
    ensures k * n >= n
  {
    assert k * n == (k - 1) * n + n;
  }

  /** How many seats one walks forward from `a` to reach `b`; a full circle from a seat to itself. */
  function Dist(n: nat, a: nat, b: nat): (d: nat)
    requires a < n && b < n
    ensures 1 <= d <= n
    ensures Wrap(a + d, n) == b
  {
    if a < b then b - a else b + n - a
  }
}
