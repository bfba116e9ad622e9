/** Who wins a layer of the pot and what each winner gets (poker/game.py:1111-1171). */
module PotShares {
  import opened Prelude
  import opened HandOrder

  // ---------------------------------------------------------------- winners

  /** Nobody among `ids` holds a stronger hand than `pid`. */
  predicate IsTop(pid: nat, ids: seq<nat>, hands: map<nat, HandResult>) {
    pid in hands && forall q :: q in ids && q in hands ==> !Beats(hands[q], hands[pid])
  }

  /** Those of `part` that nobody among `ids` beats, in the order of `part`. */
  function TopAmong(part: seq<nat>, ids: seq<nat>, hands: map<nat, HandResult>): (r: seq<nat>)
    ensures forall i: nat :: i in r <==> i in part && IsTop(i, ids, hands)
    ensures |r| <= |part|
  {
    if part == [] then []
    else
      var last := part[|part| - 1];
      assert part == part[..|part| - 1] + [last];
      var r := TopAmong(part[..|part| - 1], ids, hands);
      if IsTop(last, ids, hands) then r + [last] else r
  }

  function Winners(ids: seq<nat>, hands: map<nat, HandResult>): (r: seq<nat>)
    ensures forall i: nat :: i in r <==> i in ids && IsTop(i, ids, hands)
  {
    TopAmong(ids, ids, hands)
  }

  lemma {:induction false} TopAmongSame(part: seq<nat>, ids: seq<nat>, ids': seq<nat>, hands: map<nat, HandResult>)
    requires forall i :: i in part ==> (IsTop(i, ids, hands) <==> IsTop(i, ids', hands))
    ensures TopAmong(part, ids, hands) == TopAmong(part, ids', hands)
  {
    if part != [] {
      assert part[|part| - 1] in part;
      TopAmongSame(part[..|part| - 1], ids, ids', hands);
    }
  }

  lemma {:induction false} TopAmongNone(part: seq<nat>, ids: seq<nat>, hands: map<nat, HandResult>)
    requires forall i :: i in part ==> !IsTop(i, ids, hands)
    ensures TopAmong(part, ids, hands) == []
  {
    if part != [] {
      assert part[|part| - 1] in part;
      TopAmongNone(part[..|part| - 1], ids, hands);
    }
  }

  /** `best` is the strongest hand among `ids`. */
  predicate IsBest(best: HandResult, ids: seq<nat>, hands: map<nat, HandResult>) {
    && (exists i :: i in ids && i in hands && hands[i] == best)
    && (forall q :: q in ids && q in hands ==> !Beats(hands[q], best))
  }

  /** How one more id changes the winners: the three branches of the loop. */
  lemma OneMoreId(ids: seq<nat>, pid: nat, best: HandResult, hands: map<nat, HandResult>)
    requires IsBest(best, ids, hands) && pid in hands
    ensures Beats(hands[pid], best) ==>
              Winners(ids + [pid], hands) == [pid] && IsBest(hands[pid], ids + [pid], hands)
    ensures hands[pid] == best ==> Winners(ids + [pid], hands) == Winners(ids, hands) + [pid]
    ensures !Beats(hands[pid], best) && hands[pid] != best ==> Winners(ids + [pid], hands) == Winners(ids, hands)
    ensures !Beats(hands[pid], best) ==> IsBest(best, ids + [pid], hands)
  {
    if Beats(hands[pid], best) {
      NewBest(ids, pid, best, hands);
    } else {
      OldBest(ids, pid, best, hands);
    }
  }

  lemma NewBest(ids: seq<nat>, pid: nat, best: HandResult, hands: map<nat, HandResult>)
    requires IsBest(best, ids, hands) && pid in hands && Beats(hands[pid], best)
    ensures Winners(ids + [pid], hands) == [pid] && IsBest(hands[pid], ids + [pid], hands)
    ensures hands[pid] != best
  {
    hide Beats;
    var more := ids + [pid];
    assert more[..|more| - 1] == ids && more[|more| - 1] == pid && pid in more;
    BeatsIsTotal(hands[pid], best);
    BeatsIsTotal(hands[pid], hands[pid]);
    forall q | q in ids && q in hands ensures Beats(hands[pid], hands[q]) && !Beats(hands[q], hands[pid]) {
      BeatsIsTotal(hands[pid], hands[q]);
      if !Beats(hands[pid], hands[q]) { BeatsIsTransitive(hands[pid], hands[q], best); }
    }
    TopAmongNone(ids, more, hands);
  }

  lemma OldBest(ids: seq<nat>, pid: nat, best: HandResult, hands: map<nat, HandResult>)
    requires IsBest(best, ids, hands) && pid in hands && !Beats(hands[pid], best)
    ensures Winners(ids + [pid], hands) == Winners(ids, hands) + if hands[pid] == best then [pid] else []
    ensures IsBest(best, ids + [pid], hands)
  {
    hide Beats;
    var more := ids + [pid];
    assert more[..|more| - 1] == ids && more[|more| - 1] == pid && pid in more;
    BeatsIsTotal(hands[pid], best);
    var b :| b in ids && b in hands && hands[b] == best;
    assert b in more;
    forall i | i in ids ensures IsTop(i, ids, hands) <==> IsTop(i, more, hands) {
      if IsTop(i, ids, hands) { BeatsIsTransitive(hands[pid], best, hands[i]); }
    }
    TopAmongSame(ids, ids, more, hands);
  }

  lemma OneIdWithoutHand(ids: seq<nat>, pid: nat, hands: map<nat, HandResult>)
    requires pid !in hands
    ensures Winners(ids + [pid], hands) == Winners(ids, hands)
    ensures forall best :: IsBest(best, ids, hands) <==> IsBest(best, ids + [pid], hands)
  {
    var more := ids + [pid];
    assert more[..|more| - 1] == ids;
    assert forall q :: q in more && q in hands <==> q in ids && q in hands;
    TopAmongSame(ids, ids, more, hands);
  }

  lemma FirstHand(ids: seq<nat>, pid: nat, hands: map<nat, HandResult>)
    requires pid in hands && forall i :: i in ids ==> i !in hands
    ensures Winners(ids + [pid], hands) == [pid] && IsBest(hands[pid], ids + [pid], hands)
  {
    var more := ids + [pid];
    assert more[..|more| - 1] == ids && pid in more;
    BeatsIsTotal(hands[pid], hands[pid]);
    TopAmongNone(ids, more, hands);
  }

  lemma NobodyWins(hands: map<nat, HandResult>)
    ensures Winners([], hands) == []
  {
  }

  /** The winners are exactly the ids nobody beats, in the order of the list. */
  method DetermineWinnerIds(ids: seq<nat>, hands: map<nat, HandResult>)
    returns (winners: seq<nat>, best: Option<HandResult>)
    ensures winners == Winners(ids, hands)
    ensures best == None <==> forall i :: i in ids ==> i !in hands
    ensures best.Some? ==> IsBest(best.value, ids, hands)
  {
    hide Winners, Beats;
    winners, best := [], None;
    NobodyWins(hands);
    for k := 0 to |ids|
      invariant winners == Winners(ids[..k], hands)
      invariant best == None <==> forall i :: i in ids[..k] ==> i !in hands
      invariant best.Some? ==> IsBest(best.value, ids[..k], hands)
    {
      var pid := ids[k];
      assert ids[..k + 1] == ids[..k] + [pid];
      if pid !in hands {
        OneIdWithoutHand(ids[..k], pid, hands);
        continue;
      }
      var hand := hands[pid];
      if best == None {
        FirstHand(ids[..k], pid, hands);
        best, winners := Some(hand), [pid];
      } else {
        OneMoreId(ids[..k], pid, best.value, hands);
        StrongerOrEqual(hand, best.value);
        if hand.rank.Value() > best.value.rank.Value()
           || (hand.rank.Value() == best.value.rank.Value() && LexLess(best.value.kickers, hand.kickers)) {
          best, winners := Some(hand), [pid];
        } else if hand.rank.Value() == best.value.rank.Value() && hand.kickers == best.value.kickers {
          winners := winners + [pid];
        }
      }
    }
    assert ids[..|ids|] == ids;
  }

  lemma StrongerOrEqual(a: HandResult, b: HandResult)
    ensures Beats(a, b) <==>
              a.rank.Value() > b.rank.Value() || (a.rank.Value() == b.rank.Value() && LexLess(b.kickers, a.kickers))
    ensures a == b <==> a.rank.Value() == b.rank.Value() && a.kickers == b.kickers
  {
    ValueIsInjective(a.rank, b.rank);
  }

  /** Some eligible player always wins. */
  lemma {:induction false} SomebodyWins(ids: seq<nat>, hands: map<nat, HandResult>)
    requires ids != [] && forall i :: i in ids ==> i in hands
    ensures exists best :: IsBest(best, ids, hands)
    ensures Winners(ids, hands) != []
  {
    var p, last := ids[..|ids| - 1], ids[|ids| - 1];
    assert ids == p + [last];
    assert last in ids;
    if p == [] {
      FirstHand(p, last, hands);
    } else {
      SomebodyWins(p, hands);
      var best :| IsBest(best, p, hands);
      OneMoreId(p, last, best, hands);
      BeatsIsTotal(hands[last], best);
    }
  }

  // ---------------------------------------------------------------- shares

  /** What the j-th of `k` winners gets: the odd chips go to the lowest ids. */
  function Portion(amount: nat, k: nat, j: nat): nat
    requires k > 0
  {
    amount / k + if j < amount % k then 1 else 0
  }

  function ShareAmong(winners: seq<nat>, k: nat, amount: nat, pid: nat): nat
    requires |winners| <= k
  {
    if pid in winners then Portion(amount, k, IndexOf(winners, pid)) else 0
  }

  function Share(winners: seq<nat>, amount: nat, pid: nat): nat {
    ShareAmong(winners, |winners|, amount, pid)
  }

  function Shares(n: nat, winners: seq<nat>, k: nat, amount: nat): (r: seq<int>)
    requires |winners| <= k
    ensures |r| == n && forall i :: 0 <= i < n ==> r[i] == ShareAmong(winners, k, amount, i)
  {
    seq(n, i requires 0 <= i < n => ShareAmong(winners, k, amount, i))
  }

  lemma LastWinner(n: nat, winners: seq<nat>)
    requires Ascending(winners) && Under(winners, n) && n > 0 && n - 1 in winners
    ensures winners[|winners| - 1] == n - 1 && IndexOf(winners, n - 1) == |winners| - 1
    ensures Ascending(winners[..|winners| - 1]) && Under(winners[..|winners| - 1], n - 1)
  {
    var m := |winners| - 1;
    var x :| 0 <= x <= m && winners[x] == n - 1;
  }

  lemma SharesOfFewer(n: nat, winners: seq<nat>, k: nat, amount: nat)
    requires 0 < k && 0 < |winners| <= k && winners[|winners| - 1] == n
    ensures Shares(n + 1, winners, k, amount)[..n] == Shares(n, winners[..|winners| - 1], k, amount)
  {
    assert winners == winners[..|winners| - 1] + [n];
  }

  lemma {:induction false} SharesAddUp(n: nat, winners: seq<nat>, k: nat, amount: nat)
    requires 0 < k && |winners| <= k && Ascending(winners) && Under(winners, n)
    ensures Sum(Shares(n, winners, k, amount)) == |winners| * (amount / k) + Min(|winners|, amount % k)
  {
    hide IndexOf, Under;
    var s := Shares(n, winners, k, amount);
    if n == 0 {
      FirstIsUnder(winners, n);
    } else if n - 1 in winners {
      LastWinner(n, winners);
      var p := winners[..|winners| - 1];
      SharesAddUp(n - 1, p, k, amount);
      SharesOfFewer(n - 1, winners, k, amount);
      OneMoreTime(|p|, amount / k);
    } else {
      NotTheLast(n, winners);
      SharesAddUp(n - 1, winners, k, amount);
      assert s[..n - 1] == Shares(n - 1, winners, k, amount);
      assert s[n - 1] == 0;
    }
  }

  lemma FirstIsUnder(winners: seq<nat>, n: nat)
    requires Under(winners, n)
    ensures winners != [] ==> n > 0
  {
    if winners != [] { assert winners[0] < n; }
  }

  lemma NotTheLast(n: nat, winners: seq<nat>)
    requires Under(winners, n) && n > 0 && n - 1 !in winners
    ensures Under(winners, n - 1)
  {
    forall k | 0 <= k < |winners| ensures winners[k] < n - 1 { assert winners[k] in winners; }
  }

  /** A layer is paid out exactly. */
  lemma LayerIsPaidOut(n: nat, winners: seq<nat>, amount: nat)
    requires winners != [] && Ascending(winners) && Under(winners, n)
    ensures Sum(Shares(n, winners, |winners|, amount)) == amount
  {
    var k := |winners|;
    SharesAddUp(n, winners, k, amount);
    assert amount == k * (amount / k) + amount % k;
  }

  lemma Division(a: nat, k: nat)
    requires k > 0
    ensures a == k * (a / k) + a % k && 0 <= a % k < k
  {
  }

  lemma QuotientFits(a: nat, k: nat, q: nat, r: nat)
    requires k > 0 && a == k * q + r && r < k
    ensures q + (if r > 0 then 1 else 0) <= a
  {
    if q > 0 {
      MulAtLeast(q, k);
      if k > 1 { assert k * q == (k - 1) * q + q && (k - 1) * q >= 1 by { MulAtLeast(k - 1, q); } }
    }
  }

  lemma ShareAtMostAmount(winners: seq<nat>, amount: nat, pid: nat)
    requires winners != []
    ensures Share(winners, amount, pid) <= amount
  {
    hide IndexOf;
    Division(amount, |winners|);
    QuotientFits(amount, |winners|, amount / |winners|, amount % |winners|);
  }

  /** When `width` chips came from each of `m` contributors, each of at most `m` winners gets at least `width`. */
  lemma ShareAtLeastWidth(winners: seq<nat>, width: nat, m: nat, pid: nat)
    requires 0 < |winners| <= m && pid in winners
    ensures Share(winners, width * m, pid) >= width
  {
    var k := |winners|;
    assert width * m == width * k + width * (m - k);
    DivideAtLeast(width * m, k, width);
  }

  lemma DivideAtLeast(a: nat, k: nat, q: nat)
    requires k > 0 && a >= q * k
    ensures a / k >= q
  {
    Division(a, k);
    if a / k < q { ProductGap(k, a / k, q); }
  }

  lemma ProductGap(k: nat, low: nat, high: nat)
    requires low < high
    ensures high * k >= k * low + k
  {
    MulAtLeast(high - low, k);
    assert (high - low) * k == high * k - k * low;
  }
}
