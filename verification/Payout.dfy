/** The showdown pays the layers of the pot to the best hands (poker/game.py:1139-1171, 1241-1244). */
module Payout {
  import opened Prelude
  import opened HandOrder
  import opened PotLayers
  import opened PotShares

  /** The contributors of a layer who are still in the hand. */
  function Eligible(contributors: seq<nat>, hands: map<nat, HandResult>): (r: seq<nat>)
    ensures forall i: nat :: i in r <==> i in contributors && i in hands
  {
    if contributors == [] then []
    else
      var last := contributors[|contributors| - 1];
      assert contributors == contributors[..|contributors| - 1] + [last];
      var r := Eligible(contributors[..|contributors| - 1], hands);
      if last in hands then r + [last] else r
  }

  lemma {:induction false} EligibleAscends(contributors: seq<nat>, hands: map<nat, HandResult>)
    requires Ascending(contributors)
    ensures Ascending(Eligible(contributors, hands)) && |Eligible(contributors, hands)| <= |contributors|
  {
    if contributors != [] {
      var p := contributors[..|contributors| - 1];
      EligibleAscends(p, hands);
      var e := Eligible(p, hands);
      forall i | 0 <= i < |e| ensures e[i] < contributors[|contributors| - 1] {
        assert e[i] in e;
        var k :| 0 <= k < |p| && p[k] == e[i];
      }
    }
  }

  lemma {:induction false} TopAscends(part: seq<nat>, ids: seq<nat>, hands: map<nat, HandResult>)
    requires Ascending(part)
    ensures Ascending(TopAmong(part, ids, hands))
  {
    if part != [] {
      var p := part[..|part| - 1];
      TopAscends(p, ids, hands);
      var e := TopAmong(p, ids, hands);
      forall i | 0 <= i < |e| ensures e[i] < part[|part| - 1] {
        assert e[i] in e;
        var k :| 0 <= k < |p| && p[k] == e[i];
      }
    }
  }

  function LayerWinners(contrib: seq<nat>, hands: map<nat, HandResult>, t: nat): (r: seq<nat>)
    requires t < |Levels(contrib)|
  {
    Winners(Eligible(LayerAt(contrib, t).contributors, hands), hands)
  }

  /** What the t-th layer gives to `pid`. */
  function LayerShare(contrib: seq<nat>, hands: map<nat, HandResult>, t: nat, pid: nat): nat
    requires t < |Levels(contrib)|
  {
    Share(LayerWinners(contrib, hands, t), LayerAt(contrib, t).amount, pid)
  }

  /** What the first `t` layers give to `pid`. */
  function WonIn(contrib: seq<nat>, hands: map<nat, HandResult>, t: nat, pid: nat): nat
    requires t <= |Levels(contrib)|
  {
    if t == 0 then 0 else WonIn(contrib, hands, t - 1, pid) + LayerShare(contrib, hands, t - 1, pid)
  }

  function Won(contrib: seq<nat>, hands: map<nat, HandResult>, pid: nat): nat {
    WonIn(contrib, hands, |Levels(contrib)|, pid)
  }

  // ---------------------------------------------------------------- one layer

  lemma WinnersOfLayer(contrib: seq<nat>, hands: map<nat, HandResult>, t: nat)
    requires t < |Levels(contrib)|
    ensures Ascending(LayerWinners(contrib, hands, t)) && Under(LayerWinners(contrib, hands, t), |contrib|)
    ensures |LayerWinners(contrib, hands, t)| <= |LayerAt(contrib, t).contributors|
    ensures forall i :: i in LayerWinners(contrib, hands, t) ==>
              i in hands && i < |contrib| && contrib[i] >= Levels(contrib)[t]
    ensures (exists i :: i in hands && i < |contrib| && contrib[i] >= Levels(contrib)[t])
              ==> LayerWinners(contrib, hands, t) != []
  {
    var c := LayerAt(contrib, t).contributors;
    var e := Eligible(c, hands);
    EligibleAscends(c, hands);
    TopAscends(e, e, hands);
    WinnersReach(contrib, hands, t);
    var w := LayerWinners(contrib, hands, t);
    forall k | 0 <= k < |w| ensures w[k] < |contrib| { assert w[k] in w; }
    if i :| i in hands && i < |contrib| && contrib[i] >= Levels(contrib)[t] { SomebodyClaims(contrib, hands, t, i); }
  }

  lemma WinnersReach(contrib: seq<nat>, hands: map<nat, HandResult>, t: nat)
    requires t < |Levels(contrib)|
    ensures forall i :: i in LayerWinners(contrib, hands, t) ==>
              i in hands && i < |contrib| && contrib[i] >= Levels(contrib)[t]
  {
  }

  lemma SomebodyClaims(contrib: seq<nat>, hands: map<nat, HandResult>, t: nat, i: nat)
    requires t < |Levels(contrib)| && i in hands && i < |contrib| && contrib[i] >= Levels(contrib)[t]
    ensures i in Eligible(LayerAt(contrib, t).contributors, hands)
    ensures LayerWinners(contrib, hands, t) != []
  {
    SomebodyWins(Eligible(LayerAt(contrib, t).contributors, hands), hands);
  }

  /** Nobody in the hand is stronger than `pid`. */
  predicate Unbeaten(hands: map<nat, HandResult>, pid: nat) {
    pid in hands && forall q :: q in hands ==> !Beats(hands[q], hands[pid])
  }

  /** `pid` is stronger than everybody else in the hand. */
  predicate StrictlyBest(hands: map<nat, HandResult>, pid: nat) {
    pid in hands && forall q :: q in hands && q != pid ==> Beats(hands[pid], hands[q])
  }

  lemma UnbeatenWinsLayer(contrib: seq<nat>, hands: map<nat, HandResult>, t: nat, pid: nat)
    requires t < |Levels(contrib)| && pid < |contrib| && contrib[pid] >= Levels(contrib)[t] && Unbeaten(hands, pid)
    ensures pid in LayerWinners(contrib, hands, t)
  {
  }

  lemma StrictlyBestTakesLayer(contrib: seq<nat>, hands: map<nat, HandResult>, t: nat, pid: nat)
    requires t < |Levels(contrib)| && pid < |contrib| && contrib[pid] >= Levels(contrib)[t] && StrictlyBest(hands, pid)
    ensures LayerWinners(contrib, hands, t) == [pid]
  {
    StrictlyBestIsUnbeaten(hands, pid);
    UnbeatenWinsLayer(contrib, hands, t, pid);
    WinnersOfLayer(contrib, hands, t);
    var w := LayerWinners(contrib, hands, t);
    assert pid in Eligible(LayerAt(contrib, t).contributors, hands);
    forall k | 0 <= k < |w| ensures w[k] == pid { assert w[k] in w; }
    OnlyElement(w, pid);
  }

  lemma StrictlyBestIsUnbeaten(hands: map<nat, HandResult>, pid: nat)
    requires StrictlyBest(hands, pid)
    ensures Unbeaten(hands, pid)
  {
    forall q | q in hands ensures !Beats(hands[q], hands[pid]) { BeatsIsTotal(hands[q], hands[pid]); }
  }

  lemma FirstTwo(w: seq<nat>)
    requires Ascending(w)
    ensures |w| > 1 ==> w[0] < w[1]
  {
  }

  lemma OnlyElement(w: seq<nat>, x: nat)
    requires Ascending(w) && x in w && forall k :: 0 <= k < |w| ==> w[k] == x
    ensures w == [x]
  {
    FirstTwo(w);
  }

  lemma WholeLayer(amount: nat, pid: nat)
    ensures Share([pid], amount, pid) == amount
  {
  }

  // ---------------------------------------------------------------- who gets how much

  /** Folded players win nothing. */
  lemma {:induction false} FoldedWinNothing(contrib: seq<nat>, hands: map<nat, HandResult>, t: nat, pid: nat)
    requires t <= |Levels(contrib)| && pid !in hands
    ensures WonIn(contrib, hands, t, pid) == 0
  {
    hide Levels, LayerAt, LayerWinners;
    if t > 0 {
      FoldedWinNothing(contrib, hands, t - 1, pid);
      WinnersOfLayer(contrib, hands, t - 1);
    }
  }

  lemma {:induction false} WonAtMost(contrib: seq<nat>, hands: map<nat, HandResult>, t: nat, pid: nat)
    requires t <= |Levels(contrib)| && pid < |contrib|
    ensures WonIn(contrib, hands, t, pid) <= UpTo(contrib, Min(contrib[pid], Below(Levels(contrib), t)))
  {
    hide UpTo, Levels, LayerAt, LayerWinners, Share;
    if t > 0 {
      WonAtMost(contrib, hands, t - 1, pid);
      NothingBetweenLevels(contrib, t - 1);
      WinnersOfLayer(contrib, hands, t - 1);
      LayerAmount(contrib, t - 1);
      if contrib[pid] >= Levels(contrib)[t - 1] {
        if LayerWinners(contrib, hands, t - 1) == [] {
          NoShare(LayerAt(contrib, t - 1).amount, pid);
        } else {
          ShareAtMostAmount(LayerWinners(contrib, hands, t - 1), LayerAt(contrib, t - 1).amount, pid);
        }
      } else {
        NotAWinner(LayerWinners(contrib, hands, t - 1), LayerAt(contrib, t - 1).amount, pid);
      }
    }
  }

  lemma NoShare(amount: nat, pid: nat)
    ensures Share([], amount, pid) == 0
  {
  }

  lemma NotAWinner(winners: seq<nat>, amount: nat, pid: nat)
    requires pid !in winners
    ensures Share(winners, amount, pid) == 0
  {
  }

  lemma {:induction false} StrictlyBestWins(contrib: seq<nat>, hands: map<nat, HandResult>, t: nat, pid: nat)
    requires t <= |Levels(contrib)| && pid < |contrib| && StrictlyBest(hands, pid)
    ensures WonIn(contrib, hands, t, pid) == UpTo(contrib, Min(contrib[pid], Below(Levels(contrib), t)))
  {
    hide UpTo, Levels, LayerAt, LayerWinners, Share;
    if t == 0 {
      UpToZero(contrib);
    } else {
      StrictlyBestWins(contrib, hands, t - 1, pid);
      NothingBetweenLevels(contrib, t - 1);
      WinnersOfLayer(contrib, hands, t - 1);
      LayerAmount(contrib, t - 1);
      if contrib[pid] >= Levels(contrib)[t - 1] {
        StrictlyBestTakesLayer(contrib, hands, t - 1, pid);
        WholeLayer(LayerAt(contrib, t - 1).amount, pid);
      } else {
        NotAWinner(LayerWinners(contrib, hands, t - 1), LayerAt(contrib, t - 1).amount, pid);
      }
    }
  }

  lemma {:induction false} UnbeatenWinsBack(contrib: seq<nat>, hands: map<nat, HandResult>, t: nat, pid: nat)
    requires t <= |Levels(contrib)| && pid < |contrib| && Unbeaten(hands, pid)
    ensures WonIn(contrib, hands, t, pid) >= Min(contrib[pid], Below(Levels(contrib), t))
  {
    hide Levels, LayerWinners, Share, Unbeaten, Reaching;
    if t > 0 {
      UnbeatenWinsBack(contrib, hands, t - 1, pid);
      NothingBetweenLevels(contrib, t - 1);
      if contrib[pid] >= Levels(contrib)[t - 1] {
        UnbeatenWinsLayer(contrib, hands, t - 1, pid);
        WinnersOfLayer(contrib, hands, t - 1);
        var level, low := Levels(contrib)[t - 1], Below(Levels(contrib), t - 1);
        ShareAtLeastWidth(LayerWinners(contrib, hands, t - 1), level - low, |Reaching(contrib, level)|, pid);
      }
    }
  }

  /** Everybody but `pid` put in at most `second`. */
  predicate AtMostBeside(contrib: seq<nat>, pid: nat, second: nat) {
    forall i :: 0 <= i < |contrib| && i != pid ==> contrib[i] <= second
  }

  lemma {:induction false} ExcessComesBack(contrib: seq<nat>, hands: map<nat, HandResult>, t: nat,
                                           pid: nat, second: nat)
    requires t <= |Levels(contrib)| && pid < |contrib| && pid in hands
    requires AtMostBeside(contrib, pid, second) && contrib[pid] > second
    requires second == 0 || exists i :: 0 <= i < |contrib| && i != pid && contrib[i] == second
    ensures WonIn(contrib, hands, t, pid) >= Below(Levels(contrib), t) - second
  {
    hide Levels, LayerWinners, Share, Reaching, LayerAt;
    if t > 0 {
      ExcessComesBack(contrib, hands, t - 1, pid, second);
      NothingBetweenLevels(contrib, t - 1);
      var level, low := Levels(contrib)[t - 1], Below(Levels(contrib), t - 1);
      if level > second {
        OnlyContributor(contrib, t - 1, pid, second);
        WinnersOfLayer(contrib, hands, t - 1);
        var w := LayerWinners(contrib, hands, t - 1);
        forall k | 0 <= k < |w| ensures w[k] == pid { assert w[k] in w; }
        assert w[0] == pid;
        OnlyElement(w, pid);
        WholeLayer(LayerAt(contrib, t - 1).amount, pid);
        assert low >= second || t == 1;
      }
    }
  }

  lemma OnlyContributor(contrib: seq<nat>, t: nat, pid: nat, second: nat)
    requires t < |Levels(contrib)| && pid < |contrib| && AtMostBeside(contrib, pid, second)
             && Levels(contrib)[t] > second
    ensures LayerAt(contrib, t).amount == Levels(contrib)[t] - Below(Levels(contrib), t)
    ensures contrib[pid] >= Levels(contrib)[t]
  {
    var level := Levels(contrib)[t];
    assert level in Levels(contrib);
    var i :| 0 <= i < |contrib| && contrib[i] == level;
    assert i == pid;
    var r := Reaching(contrib, level);
    forall k | 0 <= k < |r| ensures r[k] == pid { assert r[k] in r; }
    OnlyElement(r, pid);
  }

  // ---------------------------------------------------------------- everything that is paid

  /** The largest contribution of a player who is still in the hand. */
  function MaxLive(contrib: seq<nat>, hands: map<nat, HandResult>): (m: nat)
    ensures forall i :: i in hands && i < |contrib| ==> contrib[i] <= m
    ensures m > 0 ==> exists i :: i in hands && i < |contrib| && contrib[i] == m
  {
    if contrib == [] then 0
    else
      var n := |contrib| - 1;
      var m := MaxLive(contrib[..n], hands);
      if n in hands && contrib[n] > m then contrib[n] else m
  }

  function WonBySeat(contrib: seq<nat>, hands: map<nat, HandResult>, t: nat): (r: seq<int>)
    requires t <= |Levels(contrib)|
    ensures |r| == |contrib| && forall i :: 0 <= i < |r| ==> r[i] == WonIn(contrib, hands, t, i)
  {
    seq(|contrib|, i requires 0 <= i < |contrib| => WonIn(contrib, hands, t, i))
  }

  lemma PaidByLayer(contrib: seq<nat>, hands: map<nat, HandResult>, t: nat)
    requires t < |Levels(contrib)|
    ensures Sum(Shares(|contrib|, LayerWinners(contrib, hands, t), |LayerWinners(contrib, hands, t)|,
              LayerAt(contrib, t).amount))
         == if Levels(contrib)[t] <= MaxLive(contrib, hands) then LayerAt(contrib, t).amount else 0
  {
    hide Levels, LayerWinners, LayerAt, Share;
    var w := LayerWinners(contrib, hands, t);
    WinnersOfLayer(contrib, hands, t);
    NothingBetweenLevels(contrib, t);
    if w == [] {
      SumOfNothing(Shares(|contrib|, w, 0, LayerAt(contrib, t).amount));
    } else {
      LayerIsPaidOut(|contrib|, w, LayerAt(contrib, t).amount);
      assert w[0] in w;
    }
  }

  lemma {:induction false} SumOfNothing(s: seq<int>)
    requires forall i :: 0 <= i < |s| ==> s[i] == 0
    ensures Sum(s) == 0
  {
    if s != [] { SumOfNothing(s[..|s| - 1]); }
  }

  lemma {:induction false} TotalPaid(contrib: seq<nat>, hands: map<nat, HandResult>, t: nat)
    requires t <= |Levels(contrib)|
    ensures Sum(WonBySeat(contrib, hands, t)) == UpTo(contrib, Min(MaxLive(contrib, hands), Below(Levels(contrib), t)))
  {
    hide Levels, LayerWinners, LayerAt, Share, UpTo;
    if t == 0 {
      SumOfNothing(WonBySeat(contrib, hands, 0));
      UpToZero(contrib);
    } else {
      TotalPaid(contrib, hands, t - 1);
      PaidByLayer(contrib, hands, t - 1);
      LayerAmount(contrib, t - 1);
      LiveMaxIsALevel(contrib, hands, t - 1);
      AddLayerShares(contrib, hands, t - 1);
    }
  }

  lemma AddLayerShares(contrib: seq<nat>, hands: map<nat, HandResult>, t: nat)
    requires t < |Levels(contrib)|
    ensures Sum(WonBySeat(contrib, hands, t + 1)) == Sum(WonBySeat(contrib, hands, t))
          + Sum(Shares(|contrib|, LayerWinners(contrib, hands, t), |LayerWinners(contrib, hands, t)|,
            LayerAt(contrib, t).amount))
  {
    hide LayerWinners, LayerAt, ShareAmong;
    var w := LayerWinners(contrib, hands, t);
    SumAdds(WonBySeat(contrib, hands, t), Shares(|contrib|, w, |w|, LayerAt(contrib, t).amount),
            WonBySeat(contrib, hands, t + 1));
  }

  lemma LiveMaxIsALevel(contrib: seq<nat>, hands: map<nat, HandResult>, t: nat)
    requires t < |Levels(contrib)|
    ensures MaxLive(contrib, hands) <= Below(Levels(contrib), t) || MaxLive(contrib, hands) >= Levels(contrib)[t]
    ensures Below(Levels(contrib), t) < Levels(contrib)[t]
  {
    NothingBetweenLevels(contrib, t);
  }

  /** By how much each player's contribution exceeds `cap`. */
  function Excess(contrib: seq<nat>, cap: nat): (r: seq<int>)
    ensures |r| == |contrib| && forall i :: 0 <= i < |r| ==> r[i] == Max(0, contrib[i] - cap)
  {
    seq(|contrib|, i requires 0 <= i < |contrib| => Max(0, contrib[i] - cap))
  }

  /**
   * What the showdown pays in all is what lies at or below the largest live contribution; what is left of the pot
   * is what players (they have folded) put in above it, so everything is paid exactly if nobody put in more.
   */
  lemma ShowdownPaysUpToMaxLive(contrib: seq<nat>, hands: map<nat, HandResult>)
    ensures Sum(WonBySeat(contrib, hands, |Levels(contrib)|)) == UpTo(contrib, MaxLive(contrib, hands))
    ensures Sum(contrib) - UpTo(contrib, MaxLive(contrib, hands)) == Sum(Excess(contrib, MaxLive(contrib, hands))) >= 0
    ensures UpTo(contrib, MaxLive(contrib, hands)) == Sum(contrib)
       <==> forall i :: 0 <= i < |contrib| && i !in hands ==> contrib[i] <= MaxLive(contrib, hands)
  {
    var m := MaxLive(contrib, hands);
    TotalPaid(contrib, hands, |Levels(contrib)|);
    TopLevel(contrib);
    MaxLiveBelowTop(contrib, hands);
    SumAdds(Capped(contrib, m), Excess(contrib, m), contrib);
    SumIsNonNegative(Excess(contrib, m));
    if forall i :: 0 <= i < |contrib| && i !in hands ==> contrib[i] <= m {
      SumOfNothing(Excess(contrib, m));
    } else {
      var i :| 0 <= i < |contrib| && i !in hands && contrib[i] > m;
      assert Excess(contrib, m)[i] > 0;
    }
  }

  lemma MaxLiveBelowTop(contrib: seq<nat>, hands: map<nat, HandResult>)
    ensures MaxLive(contrib, hands) <= Below(Levels(contrib), |Levels(contrib)|)
  {
    TopLevel(contrib);
  }

  /**
   * Table stakes: nobody wins more than the sum, over all players, of the smaller of the two contributions; folded
   * players win nothing; a hand better than every other live hand wins exactly that sum.
   */
  lemma TableStakes(contrib: seq<nat>, hands: map<nat, HandResult>, pid: nat)
    requires pid < |contrib|
    ensures Won(contrib, hands, pid) <= UpTo(contrib, contrib[pid])
    ensures pid !in hands ==> Won(contrib, hands, pid) == 0
    ensures StrictlyBest(hands, pid) ==> Won(contrib, hands, pid) == UpTo(contrib, contrib[pid])
  {
    var t := |Levels(contrib)|;
    TopLevel(contrib);
    WonAtMost(contrib, hands, t, pid);
    if pid !in hands { FoldedWinNothing(contrib, hands, t, pid); }
    if StrictlyBest(hands, pid) { StrictlyBestWins(contrib, hands, t, pid); }
  }

  /** An unbeaten hand never loses chips, and the strictly largest live contributor gets the uncalled excess back. */
  lemma NoLossForBestOrDeepest(contrib: seq<nat>, hands: map<nat, HandResult>, pid: nat)
    requires pid < |contrib|
    ensures Unbeaten(hands, pid) ==> Won(contrib, hands, pid) >= contrib[pid]
    ensures forall second: nat ::
              pid in hands && contrib[pid] > second && AtMostBeside(contrib, pid, second)
              && (second == 0 || exists i :: 0 <= i < |contrib| && i != pid && contrib[i] == second)
              ==> Won(contrib, hands, pid) >= contrib[pid] - second
  {
    var t := |Levels(contrib)|;
    TopLevel(contrib);
    if Unbeaten(hands, pid) { UnbeatenWinsBack(contrib, hands, t, pid); }
    forall second: nat | pid in hands && contrib[pid] > second && AtMostBeside(contrib, pid, second)
                         && (second == 0 || exists i :: 0 <= i < |contrib| && i != pid && contrib[i] == second)
      ensures Won(contrib, hands, pid) >= contrib[pid] - second
    {
      ExcessComesBack(contrib, hands, t, pid, second);
    }
  }

  // ---------------------------------------------------------------- the loops of the showdown

  /** `winnings_map.get(pid, 0)`. */
  function WinningsOf(winnings: map<nat, nat>, pid: nat): nat {
    if pid in winnings then winnings[pid] else 0
  }

  lemma OneMoreWinner(winners: seq<nat>, k: nat, amount: nat, i: nat, pid: nat)
    requires Ascending(winners) && |winners| <= k && i < |winners|
    ensures ShareAmong(winners[..i + 1], k, amount, pid)
         == if pid == winners[i] then Portion(amount, k, i) else ShareAmong(winners[..i], k, amount, pid)
    ensures pid == winners[i] ==> pid !in winners[..i]
  {
    assert winners[..i + 1] == winners[..i] + [winners[i]];
  }

  /** The winnings once the first `i` winners have their shares. */
  ghost predicate PaidSoFar(winnings: map<nat, nat>, winnings0: map<nat, nat>, winners: seq<nat>, amount: nat, i: nat)
    requires i <= |winners|
  {
    && (forall pid :: WinningsOf(winnings, pid)
          == WinningsOf(winnings0, pid) + ShareAmong(winners[..i], |winners|, amount, pid))
    && (forall pid :: pid in winnings <==> pid in winnings0 || pid in winners[..i])
  }

  lemma NothingPaid(winnings0: map<nat, nat>, winners: seq<nat>, amount: nat)
    ensures PaidSoFar(winnings0, winnings0, winners, amount, 0)
  {
  }

  lemma EverybodyPaid(winnings: map<nat, nat>, winnings0: map<nat, nat>, winners: seq<nat>, amount: nat)
    requires PaidSoFar(winnings, winnings0, winners, amount, |winners|)
    ensures forall pid :: WinningsOf(winnings, pid) == WinningsOf(winnings0, pid) + Share(winners, amount, pid)
    ensures forall pid :: pid in winnings <==> pid in winnings0 || pid in winners
  {
    assert winners[..|winners|] == winners;
  }

  lemma OneMorePaid(winnings: map<nat, nat>, winnings0: map<nat, nat>, winners: seq<nat>, amount: nat, i: nat)
    requires Ascending(winners) && i < |winners| && PaidSoFar(winnings, winnings0, winners, amount, i)
    ensures PaidSoFar(winnings[winners[i] := WinningsOf(winnings, winners[i]) + Portion(amount, |winners|, i)],
                      winnings0, winners, amount, i + 1)
  {
    hide ShareAmong, Portion;
    assert winners[..i + 1] == winners[..i] + [winners[i]];
    forall pid { OneMoreWinner(winners, |winners|, amount, i, pid); }
    NotYetPaid(winners, amount, i);
  }

  lemma NotYetPaid(winners: seq<nat>, amount: nat, i: nat)
    requires Ascending(winners) && i < |winners|
    ensures ShareAmong(winners[..i], |winners|, amount, winners[i]) == 0
  {
  }

  /** Adds the shares of one layer to the winnings, lowest id first. */
  method PayLayer(winners: seq<nat>, amount: nat, winnings0: map<nat, nat>)
    returns (winnings: map<nat, nat>, awarded: nat)
    requires Ascending(winners) && winners != []
    ensures forall pid :: WinningsOf(winnings, pid) == WinningsOf(winnings0, pid) + Share(winners, amount, pid)
    ensures forall pid :: pid in winnings <==> pid in winnings0 || pid in winners
    ensures awarded == amount
  {
    hide PaidSoFar, ShareAmong;
    winnings, awarded := winnings0, 0;
    var k := |winners|;
    var base, remainder := amount / k, amount % k;
    NothingPaid(winnings0, winners, amount);
    for i := 0 to k
      invariant PaidSoFar(winnings, winnings0, winners, amount, i)
      invariant awarded == i * base + Min(i, remainder)
    {
      var pid := winners[i];
      var share := base + if i < remainder then 1 else 0;
      OneMorePaid(winnings, winnings0, winners, amount, i);
      OneMoreTime(i, base);
      winnings := winnings[pid := WinningsOf(winnings, pid) + share];
      awarded := awarded + share;
    }
    EverybodyPaid(winnings, winnings0, winners, amount);
    Division(amount, k);
  }

  /** The loop over the layers: who wins how much, and how much is paid in all. */
  method DistributePot(contrib: seq<nat>, hands: map<nat, HandResult>)
    returns (winnings: map<nat, nat>, totalAwarded: nat)
    ensures forall pid :: WinningsOf(winnings, pid) == Won(contrib, hands, pid)
    ensures forall pid :: pid in winnings ==> pid in hands && pid < |contrib|
    ensures totalAwarded == UpTo(contrib, MaxLive(contrib, hands))
  {
    hide Levels, LayerWinners, Share, UpTo, Winners, LayerAt, Eligible, Sum;
    var layers := BuildPotLayers(contrib);
    winnings, totalAwarded := map[], 0;
    SumOfNothing(WonBySeat(contrib, hands, 0));
    for t := 0 to |layers|
      invariant forall pid :: WinningsOf(winnings, pid) == WonIn(contrib, hands, t, pid)
      invariant forall pid :: pid in winnings ==> pid in hands && pid < |contrib|
      invariant totalAwarded == Sum(WonBySeat(contrib, hands, t))
    {
      var layer := layers[t];
      var eligible := Eligible(layer.contributors, hands);
      ClaimedLayer(contrib, hands, t);
      PaidByLayer(contrib, hands, t);
      AddLayerShares(contrib, hands, t);
      WinnersOfLayer(contrib, hands, t);
      if eligible == [] {
        // Nobody may claim the layer: its chips stay in the pot.
        forall pid { NoShare(layer.amount, pid); }
        continue;
      }
      var winners, best := DetermineWinnerIds(eligible, hands);
      // The ids rise already, so sorting them changes nothing.
      var awarded;
      winnings, awarded := PayLayer(winners, layer.amount, winnings);
      totalAwarded := totalAwarded + awarded;
    }
    TotalPaid(contrib, hands, |layers|);
    MaxLiveBelowTop(contrib, hands);
  }

  lemma ClaimedLayer(contrib: seq<nat>, hands: map<nat, HandResult>, t: nat)
    requires t < |Levels(contrib)|
    ensures LayerWinners(contrib, hands, t) == Winners(Eligible(Layers(contrib)[t].contributors, hands), hands)
    ensures LayerWinners(contrib, hands, t) == [] <==> Eligible(Layers(contrib)[t].contributors, hands) == []
    ensures LayerWinners(contrib, hands, t) == [] <==> Levels(contrib)[t] > MaxLive(contrib, hands)
    ensures Layers(contrib)[t] == LayerAt(contrib, t)
  {
    var e := Eligible(Layers(contrib)[t].contributors, hands);
    if e != [] {
      SomebodyWins(e, hands);
      assert e[0] in e;
    }
    if Levels(contrib)[t] <= MaxLive(contrib, hands) {
      NothingBetweenLevels(contrib, t);
      var i :| i in hands && i < |contrib| && contrib[i] == MaxLive(contrib, hands);
      SomebodyClaims(contrib, hands, t, i);
    }
  }

  /** Two all-in players with 50 and 60 chips, after a third put in 100 and folded: 40 chips are paid to nobody. */
  lemma FoldedExcessStaysBehind(a: HandResult, b: HandResult)
    ensures Sum([100, 50, 60]) == 210
    ensures UpTo([100, 50, 60], MaxLive([100, 50, 60], map[1 := a, 2 := b])) == 170
  {
    var contrib: seq<nat> := [100, 50, 60];
    var hands := map[1 := a, 2 := b];
    assert contrib[1] == 50 && contrib[2] == 60;
    var m := MaxLive(contrib, hands);
    assert 2 in hands && m == 60;
    assert Capped(contrib, 60) == [60, 50, 60];
    SumOfThree(60, 50, 60);
    SumOfThree(100, 50, 60);
  }

  lemma SumOfThree(a: int, b: int, c: int)
    ensures Sum([a, b, c]) == a + b + c
  {
    var s := [a, b, c];
    assert s[..2] == [a, b] && s[..2][..1] == [a] && s[..2][..1][..0] == [];
    assert Sum(s) == Sum(s[..2]) + c;
    assert Sum(s[..2]) == Sum(s[..2][..1]) + b;
    assert Sum(s[..2][..1]) == Sum(s[..2][..1][..0]) + a;
  }
}
