/**
 * Who wins the side pots, over contributions and hands alone (poker/game.py:1112-1171): no layer is mentioned in what
 * is promised to a player.
 */
module SidePots {
  import opened Prelude
  import opened HandOrder
  import opened PotLayers
  import opened PotShares
  import opened Payout

  /** The live players who put in `level` or more. */
  predicate Claims(contrib: seq<nat>, hands: map<nat, HandResult>, i: nat, level: nat) {
    i in hands && i < |contrib| && contrib[i] >= level
  }

  /** A layer goes to the claimants whom no other claimant beats. */
  lemma LayerGoesTo(contrib: seq<nat>, hands: map<nat, HandResult>, t: nat, i: nat)
    requires t < |Levels(contrib)|
    ensures i in LayerWinners(contrib, hands, t) <==>
              && Claims(contrib, hands, i, Levels(contrib)[t])
              && forall q :: Claims(contrib, hands, q, Levels(contrib)[t]) ==> !Beats(hands[q], hands[i])
  {
    hide Levels, Beats;
    var level, e := Levels(contrib)[t], Eligible(LayerAt(contrib, t).contributors, hands);
    forall q: nat ensures q in e <==> Claims(contrib, hands, q, level) { }
  }

  /** What the t-th layer holds. */
  lemma LayerHolds(contrib: seq<nat>, hands: map<nat, HandResult>, t: nat)
    requires t < |Levels(contrib)|
    ensures LayerAt(contrib, t).amount == UpTo(contrib, Levels(contrib)[t]) - UpTo(contrib, Below(Levels(contrib), t))
    ensures forall pid :: pid !in LayerWinners(contrib, hands, t) ==> LayerShare(contrib, hands, t, pid) == 0
    ensures forall pid :: LayerShare(contrib, hands, t, pid) <= LayerAt(contrib, t).amount
  {
    hide Levels, UpTo, LayerAt, LayerWinners, Share;
    LayerAmount(contrib, t);
    var w, amount := LayerWinners(contrib, hands, t), LayerAt(contrib, t).amount;
    forall pid: nat
      ensures pid !in w ==> LayerShare(contrib, hands, t, pid) == 0
      ensures LayerShare(contrib, hands, t, pid) <= amount
    {
      if pid !in w { NotAWinner(w, amount, pid); }
      if w != [] { ShareAtMostAmount(w, amount, pid); }
    }
  }

  // ---------------------------------------------------------------- a beaten player

  lemma {:induction false} BeatenWinsIn(contrib: seq<nat>, hands: map<nat, HandResult>, t: nat, p: nat, q: nat)
    requires t <= |Levels(contrib)| && p < |contrib| && q < |contrib|
    requires p in hands && q in hands && Beats(hands[q], hands[p])
    ensures var low := Below(Levels(contrib), t);
            WonIn(contrib, hands, t, p)
              <= UpTo(contrib, Min(contrib[p], low)) - UpTo(contrib, Min(Min(contrib[p], contrib[q]), low))
  {
    hide Levels, UpTo, LayerAt, LayerWinners, LayerShare, Beats;
    if t > 0 {
      BeatenWinsIn(contrib, hands, t - 1, p, q);
      NothingBetweenLevels(contrib, t - 1);
      LayerHolds(contrib, hands, t - 1);
      LayerGoesTo(contrib, hands, t - 1, p);
      var level := Levels(contrib)[t - 1];
      if contrib[q] >= level { assert Claims(contrib, hands, q, level); }
    }
  }

  /** A player beaten by `q` wins nothing of what `q` has matched, and at most what lies above. */
  lemma BeatenWinsAbove(contrib: seq<nat>, hands: map<nat, HandResult>, p: nat, q: nat)
    requires p < |contrib| && q < |contrib| && p in hands && q in hands && Beats(hands[q], hands[p])
    ensures Won(contrib, hands, p) <= UpTo(contrib, contrib[p]) - UpTo(contrib, Min(contrib[p], contrib[q]))
  {
    hide Levels, UpTo, WonIn;
    BeatenWinsIn(contrib, hands, |Levels(contrib)|, p, q);
    TopLevel(contrib);
  }

  // ---------------------------------------------------------------- the best hand above a depth

  /** `b` is the largest contribution of a live player who beats `p`, or 0 if nobody does. */
  ghost predicate BeatenUpTo(contrib: seq<nat>, hands: map<nat, HandResult>, p: nat, b: nat)
    requires p in hands
  {
    && (forall q :: q in hands && q < |contrib| && Beats(hands[q], hands[p]) ==> contrib[q] <= b)
    && (b == 0 || exists q :: q in hands && q < |contrib| && Beats(hands[q], hands[p]) && contrib[q] == b)
  }

  /** `p` beats every other live player who put in more than `b`. */
  ghost predicate BestAbove(contrib: seq<nat>, hands: map<nat, HandResult>, p: nat, b: nat)
    requires p in hands
  {
    forall q :: q in hands && q < |contrib| && q != p && contrib[q] > b ==> Beats(hands[p], hands[q])
  }

  /** Below `b` the layers go to others, above it to `p` alone. */
  lemma BestAboveTakesLayer(contrib: seq<nat>, hands: map<nat, HandResult>, t: nat, p: nat, b: nat)
    requires t < |Levels(contrib)| && p < |contrib| && p in hands
    requires BeatenUpTo(contrib, hands, p, b) && BestAbove(contrib, hands, p, b) && contrib[p] >= Levels(contrib)[t]
    ensures Levels(contrib)[t] <= b ==> p !in LayerWinners(contrib, hands, t)
    ensures Levels(contrib)[t] > b ==> LayerWinners(contrib, hands, t) == [p]
  {
    hide Levels, LayerAt, LayerWinners, Beats;
    var level, w := Levels(contrib)[t], LayerWinners(contrib, hands, t);
    LayerGoesTo(contrib, hands, t, p);
    assert level in Levels(contrib) && level > 0;
    if level <= b {
      var q :| q in hands && q < |contrib| && Beats(hands[q], hands[p]) && contrib[q] == b;
      assert Claims(contrib, hands, q, level);
    } else {
      WinnersOfLayer(contrib, hands, t);
      assert Claims(contrib, hands, p, level);
      forall k | 0 <= k < |w| ensures w[k] == p {
        assert w[k] in w;
        LayerGoesTo(contrib, hands, t, w[k]);
      }
      OnlyElement(w, p);
    }
  }

  lemma {:induction false} BestAboveWinsIn(contrib: seq<nat>, hands: map<nat, HandResult>, t: nat, p: nat, b: nat)
    requires t <= |Levels(contrib)| && p < |contrib| && p in hands
    requires BeatenUpTo(contrib, hands, p, b) && BestAbove(contrib, hands, p, b)
    ensures var low := Below(Levels(contrib), t);
            WonIn(contrib, hands, t, p)
              == UpTo(contrib, Min(contrib[p], low)) - UpTo(contrib, Min(Min(contrib[p], b), low))
  {
    hide Levels, UpTo, LayerAt, LayerWinners, Share, Beats, BeatenUpTo, BestAbove;
    if t > 0 {
      BestAboveWinsIn(contrib, hands, t - 1, p, b);
      NothingBetweenLevels(contrib, t - 1);
      BetweenLevels(contrib, hands, p, b, t - 1);
      LayerHolds(contrib, hands, t - 1);
      if contrib[p] >= Levels(contrib)[t - 1] {
        BestAboveTakesLayer(contrib, hands, t - 1, p, b);
        WholeLayer(LayerAt(contrib, t - 1).amount, p);
      } else {
        LayerGoesTo(contrib, hands, t - 1, p);
      }
    }
  }

  lemma BetweenLevels(contrib: seq<nat>, hands: map<nat, HandResult>, p: nat, b: nat, t: nat)
    requires t < |Levels(contrib)| && p in hands && BeatenUpTo(contrib, hands, p, b)
    ensures b <= Below(Levels(contrib), t) || b >= Levels(contrib)[t]
  {
    hide Levels, Beats;
    NothingBetweenLevels(contrib, t);
  }

  /**
   * The best hand among those who put in more than `b`, the depth to which it is beaten, wins exactly the chips between
   * that depth and its own contribution.
   */
  lemma BestAboveWins(contrib: seq<nat>, hands: map<nat, HandResult>, p: nat, b: nat)
    requires p < |contrib| && p in hands && BeatenUpTo(contrib, hands, p, b) && BestAbove(contrib, hands, p, b)
    ensures Won(contrib, hands, p) == UpTo(contrib, contrib[p]) - UpTo(contrib, Min(contrib[p], b))
  {
    hide Levels, UpTo, WonIn, BeatenUpTo, BestAbove;
    BestAboveWinsIn(contrib, hands, |Levels(contrib)|, p, b);
    TopLevel(contrib);
  }

  // ---------------------------------------------------------------- players with equal hands

  lemma IndexAscends(w: seq<nat>, p: nat, q: nat)
    requires Ascending(w) && p in w && q in w && p < q
    ensures IndexOf(w, p) < IndexOf(w, q)
  {
  }

  /** Of two winners of a layer the one with the lower id gets as much as the other, or one odd chip more. */
  lemma OddChip(w: seq<nat>, amount: nat, p: nat, q: nat)
    requires Ascending(w) && p < q && (p in w <==> q in w)
    ensures Share(w, amount, q) <= Share(w, amount, p) <= Share(w, amount, q) + 1
  {
    hide IndexOf;
    if p in w { IndexAscends(w, p, q); }
  }

  /** The different positive numbers of a list that are no larger than `c`. */
  ghost function Within(s: seq<nat>, c: nat): set<nat> {
    set x | x in s && 0 < x <= c
  }

  /** How many of the first `t` levels are no larger than `c`. */
  ghost function LevelsWithin(contrib: seq<nat>, t: nat, c: nat): nat
    requires t <= |Levels(contrib)|
  {
    |Within(Levels(contrib)[..t], c)|
  }

  lemma OneMoreLevel(contrib: seq<nat>, t: nat, c: nat)
    requires t < |Levels(contrib)|
    ensures LevelsWithin(contrib, t + 1, c) == LevelsWithin(contrib, t, c) + if Levels(contrib)[t] <= c then 1 else 0
  {
    hide Levels;
    var l := Levels(contrib);
    assert l[..t + 1] == l[..t] + [l[t]] && l[t] in l;
    var a, b := Within(l[..t], c), Within(l[..t + 1], c);
    if l[t] <= c {
      assert b == a + {l[t]} && l[t] !in l[..t];
    } else {
      assert b == a;
    }
  }

  lemma {:induction false} TiedWinIn(contrib: seq<nat>, hands: map<nat, HandResult>, t: nat, p: nat, q: nat)
    requires t <= |Levels(contrib)| && p < q < |contrib| && contrib[p] == contrib[q]
    requires p in hands && q in hands && hands[p] == hands[q]
    ensures WonIn(contrib, hands, t, q) <= WonIn(contrib, hands, t, p)
         <= WonIn(contrib, hands, t, q) + LevelsWithin(contrib, t, contrib[p])
  {
    hide Levels, LayerAt, LayerWinners, Share, Beats, LevelsWithin;
    if t > 0 {
      TiedWinIn(contrib, hands, t - 1, p, q);
      OneMoreLevel(contrib, t - 1, contrib[p]);
      WinnersOfLayer(contrib, hands, t - 1);
      LayerGoesTo(contrib, hands, t - 1, p);
      LayerGoesTo(contrib, hands, t - 1, q);
      OddChip(LayerWinners(contrib, hands, t - 1), LayerAt(contrib, t - 1).amount, p, q);
      if contrib[p] < Levels(contrib)[t - 1] {
        NotAWinner(LayerWinners(contrib, hands, t - 1), LayerAt(contrib, t - 1).amount, p);
      }
    }
  }

  /**
   * Players with equal hands and equal contributions win the same, but for the odd chips: the lower id gets at most one
   * more for each different contribution up to theirs.
   */
  lemma TiedWinAlike(contrib: seq<nat>, hands: map<nat, HandResult>, p: nat, q: nat)
    requires p < q < |contrib| && contrib[p] == contrib[q] && p in hands && q in hands && hands[p] == hands[q]
    ensures Won(contrib, hands, q) <= Won(contrib, hands, p)
         <= Won(contrib, hands, q) + |Within(contrib, contrib[p])|
  {
    hide Levels, WonIn;
    var l := Levels(contrib);
    TiedWinIn(contrib, hands, |l|, p, q);
    assert l[..|l|] == l;
    assert Within(l, contrib[p]) == Within(contrib, contrib[p]);
  }

  /** What the first `t` layers give to each player with the hand `h`. */
  ghost function GroupWon(contrib: seq<nat>, hands: map<nat, HandResult>, t: nat, h: HandResult): (r: seq<int>)
    requires t <= |Levels(contrib)|
    ensures |r| == |contrib|
    ensures forall i :: 0 <= i < |r| ==> r[i] == if i in hands && hands[i] == h then WonIn(contrib, hands, t, i) else 0
  {
    seq(|contrib|, i requires 0 <= i < |contrib| =>
      if i in hands && hands[i] == h then WonIn(contrib, hands, t, i) else 0)
  }

  ghost function GroupShare(contrib: seq<nat>, hands: map<nat, HandResult>, t: nat, h: HandResult): (r: seq<int>)
    requires t < |Levels(contrib)|
    ensures |r| == |contrib|
    ensures forall i :: 0 <= i < |r| ==>
              r[i] == if i in hands && hands[i] == h then LayerShare(contrib, hands, t, i) else 0
  {
    seq(|contrib|, i requires 0 <= i < |contrib| =>
      if i in hands && hands[i] == h then LayerShare(contrib, hands, t, i) else 0)
  }

  /** `c` is the largest contribution of a live player with the hand of `p`. */
  ghost predicate EqualUpTo(contrib: seq<nat>, hands: map<nat, HandResult>, p: nat, c: nat)
    requires p in hands
  {
    && (forall q :: q in hands && q < |contrib| && hands[q] == hands[p] ==> contrib[q] <= c)
    && (exists q :: q in hands && q < |contrib| && hands[q] == hands[p] && contrib[q] == c)
  }

  /** Whoever wins a layer above the depth `b` that a player of the group has matched is of the group. */
  lemma GroupTakesLayer(contrib: seq<nat>, hands: map<nat, HandResult>, t: nat, p: nat, b: nat, c: nat)
    requires t < |Levels(contrib)| && p in hands
    requires BeatenUpTo(contrib, hands, p, b) && EqualUpTo(contrib, hands, p, c) && b < Levels(contrib)[t] <= c
    ensures LayerWinners(contrib, hands, t) != []
    ensures forall w :: w in LayerWinners(contrib, hands, t) ==> hands[w] == hands[p]
  {
    hide Levels, LayerAt, LayerWinners, Beats;
    var level := Levels(contrib)[t];
    WinnersOfLayer(contrib, hands, t);
    var q :| q in hands && q < |contrib| && hands[q] == hands[p] && contrib[q] == c;
    assert Claims(contrib, hands, q, level);
    forall w | w in LayerWinners(contrib, hands, t) ensures hands[w] == hands[p] {
      LayerGoesTo(contrib, hands, t, w);
      BeatsIsTotal(hands[w], hands[p]);
    }
  }

  lemma GroupGetsNothing(contrib: seq<nat>, hands: map<nat, HandResult>, t: nat, p: nat, b: nat, c: nat, i: nat)
    requires t < |Levels(contrib)| && p in hands && i < |contrib| && i in hands && hands[i] == hands[p]
    requires BeatenUpTo(contrib, hands, p, b) && EqualUpTo(contrib, hands, p, c)
    requires Levels(contrib)[t] <= b || Levels(contrib)[t] > c
    ensures LayerShare(contrib, hands, t, i) == 0
  {
    hide Levels, LayerAt, LayerWinners, LayerShare, Beats;
    var level := Levels(contrib)[t];
    assert level in Levels(contrib) && level > 0;
    LayerHolds(contrib, hands, t);
    LayerGoesTo(contrib, hands, t, i);
    if level <= b && contrib[i] >= level {
      var q :| q in hands && q < |contrib| && Beats(hands[q], hands[p]) && contrib[q] == b;
      assert Claims(contrib, hands, q, level);
    }
  }

  lemma GroupLayer(contrib: seq<nat>, hands: map<nat, HandResult>, t: nat, p: nat, b: nat, c: nat)
    requires t < |Levels(contrib)| && p in hands
    requires BeatenUpTo(contrib, hands, p, b) && EqualUpTo(contrib, hands, p, c)
    ensures Sum(GroupShare(contrib, hands, t, hands[p]))
         == if b < Levels(contrib)[t] <= c then LayerAt(contrib, t).amount else 0
  {
    hide Levels, LayerAt, LayerWinners, BeatenUpTo, EqualUpTo, Sum, ShareAmong;
    var w, amount := LayerWinners(contrib, hands, t), LayerAt(contrib, t).amount;
    var g := GroupShare(contrib, hands, t, hands[p]);
    if b < Levels(contrib)[t] <= c {
      GroupTakesLayer(contrib, hands, t, p, b, c);
      WinnersOfLayer(contrib, hands, t);
      forall i | 0 <= i < |contrib| && !(i in hands && hands[i] == hands[p]) ensures Share(w, amount, i) == 0 {
        NotAWinner(w, amount, i);
      }
      assert g == Shares(|contrib|, w, |w|, amount);
      LayerIsPaidOut(|contrib|, w, amount);
    } else {
      forall i | 0 <= i < |contrib| ensures g[i] == 0 {
        if i in hands && hands[i] == hands[p] { GroupGetsNothing(contrib, hands, t, p, b, c, i); }
      }
      SumOfNothing(g);
    }
  }

  lemma NobodyHasWon(contrib: seq<nat>, hands: map<nat, HandResult>, h: HandResult)
    ensures Sum(GroupWon(contrib, hands, 0, h)) == 0
  {
    SumOfNothing(GroupWon(contrib, hands, 0, h));
  }

  lemma GroupAdds(contrib: seq<nat>, hands: map<nat, HandResult>, t: nat, h: HandResult)
    requires t < |Levels(contrib)|
    ensures Sum(GroupWon(contrib, hands, t + 1, h))
         == Sum(GroupWon(contrib, hands, t, h)) + Sum(GroupShare(contrib, hands, t, h))
  {
    hide Levels, LayerShare;
    SumAdds(GroupWon(contrib, hands, t, h), GroupShare(contrib, hands, t, h), GroupWon(contrib, hands, t + 1, h));
  }

  lemma {:induction false} GroupWinsIn(contrib: seq<nat>, hands: map<nat, HandResult>, t: nat, p: nat, b: nat, c: nat)
    requires t <= |Levels(contrib)| && p in hands
    requires BeatenUpTo(contrib, hands, p, b) && EqualUpTo(contrib, hands, p, c)
    ensures var low := Below(Levels(contrib), t);
            Sum(GroupWon(contrib, hands, t, hands[p]))
              == UpTo(contrib, Min(c, low)) - UpTo(contrib, Min(Min(b, c), low))
  {
    hide Levels, UpTo, LayerAt, LayerShare, BeatenUpTo, EqualUpTo, Sum, GroupWon, GroupShare, WonIn;
    if t == 0 {
      NobodyHasWon(contrib, hands, hands[p]);
    } else {
      GroupWinsIn(contrib, hands, t - 1, p, b, c);
      GroupAdds(contrib, hands, t - 1, hands[p]);
      GroupLayer(contrib, hands, t - 1, p, b, c);
      LayerAmount(contrib, t - 1);
      BetweenLevels(contrib, hands, p, b, t - 1);
      EqualBetweenLevels(contrib, hands, p, c, t - 1);
    }
  }

  lemma EqualBetweenLevels(contrib: seq<nat>, hands: map<nat, HandResult>, p: nat, c: nat, t: nat)
    requires t < |Levels(contrib)| && p in hands && EqualUpTo(contrib, hands, p, c)
    ensures Below(Levels(contrib), t) < Levels(contrib)[t]
    ensures c <= Below(Levels(contrib), t) || c >= Levels(contrib)[t]
  {
    hide Levels;
    NothingBetweenLevels(contrib, t);
  }

  /**
   * The players who share the hand of `p` together win exactly the chips between the depth `b` to which that hand is
   * beaten and the largest contribution `c` among them. This settles every chip that is paid: who wins it, up to the
   * split between equal hands.
   */
  lemma EqualHandsWin(contrib: seq<nat>, hands: map<nat, HandResult>, p: nat, b: nat, c: nat)
    requires p in hands && BeatenUpTo(contrib, hands, p, b) && EqualUpTo(contrib, hands, p, c)
    ensures Sum(GroupWon(contrib, hands, |Levels(contrib)|, hands[p])) == UpTo(contrib, c) - UpTo(contrib, Min(b, c))
    ensures forall i :: 0 <= i < |contrib| ==>
              (GroupWon(contrib, hands, |Levels(contrib)|, hands[p])[i]
               == if i in hands && hands[i] == hands[p] then Won(contrib, hands, i) else 0)
  {
    hide Levels, UpTo, WonIn, Sum, BeatenUpTo;
    GroupWinsIn(contrib, hands, |Levels(contrib)|, p, b, c);
    TopLevel(contrib);
  }
}
