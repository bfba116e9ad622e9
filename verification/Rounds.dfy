/** Whole betting rounds: how they open, and that nobody is skipped however they run. */
module Rounds {
  import opened Prelude
  import opened Cards
  import opened TableModel
  import opened Bookkeeping
  import opened Closing
  import opened Fairness

  // ---------------------------------------------------------------- how a round opens

  /** After the flop every round opens in order, with the first player after the dealer. */
  lemma NewRoundIsFair(t: Table)
    requires Placed(t) && SeatsSound(t.seats) && t.phase != Preflop && !StartRound(t).complete
    ensures Fair(StartRound(t), {}) && FirstActor(StartRound(t)) == Some(StartRound(t).cur)
  {
    var t1 := RoundCleared(t);
    var r := StartRound(t);
    assert r == t1.(cur := r.cur);
    assert FirstActor(r) == FirstActor(t1);
    assert r.cur in ActiveSeats(r);
    FirstActorIsNearest(r);
  }

  /** In a rising list of seats the next entry, cyclically, is the nearest in the direction of play. */
  lemma NextInListIsNearest(players: seq<nat>, n: nat, j: nat, k: nat)
    requires Ascending(players) && Under(players, n) && j < |players| && k < |players|
    ensures Dist(n, players[j], players[(j + 1) % |players|]) <= Dist(n, players[j], players[k])
  {
    WrapIsModulo(j + 1, |players|);
  }

  lemma OneFurther(p: nat, m: nat)
    requires p < m && m >= 3
    ensures (p + 3) % m == ((p + 2) % m + 1) % m
  {
    WrapIsModulo(p + 2, m);
    WrapIsModulo(p + 3, m);
    WrapIsModulo(Wrap(p + 2, m) + 1, m);
  }

  /** Before the flop the first player to act is the nearest one after the big blind. */
  lemma FirstAfterBigBlind(t: Table, players: seq<nat>)
    requires Placed(t) && players == SeatsIn(t.seats, {Active, AllIn}) && |players| >= 2 && t.dealer in players
    ensures var bb, first := BlindSeats(players, t.dealer).1, SetFirstActor(t).cur;
            bb in players && bb < |t.seats| && first in players
            && forall k :: 0 <= k < |players| ==>
                 players[k] < |t.seats| && Dist(|t.seats|, bb, first) <= Dist(|t.seats|, bb, players[k])
  {
    hide SeatsIn, IndexOf, Dist;
    var m, p, n := |players|, IndexOf(players, t.dealer), |t.seats|;
    assert Under(players, n) by { forall k | 0 <= k < m ensures players[k] < n { assert players[k] in players; } }
    if m == 2 {
      assert BlindSeats(players, t.dealer).1 == players[1 - p] && SetFirstActor(t).cur == players[p];
      HeadsUp(players, n, p);
    } else {
      var j := Wrap(p + 2, m);
      WrapIsModulo(p + 2, m);
      OneFurther(p, m);
      assert BlindSeats(players, t.dealer).1 == players[j] && SetFirstActor(t).cur == players[(j + 1) % m];
      forall k | 0 <= k < m ensures Dist(n, players[j], players[(j + 1) % m]) <= Dist(n, players[j], players[k]) {
        NextInListIsNearest(players, n, j, k);
      }
    }
  }

  lemma HeadsUp(players: seq<nat>, n: nat, p: nat)
    requires Ascending(players) && Under(players, n) && |players| == 2 && p < 2
    ensures forall k :: 0 <= k < 2 ==> Dist(n, players[1 - p], players[p]) <= Dist(n, players[1 - p], players[k])
  {
  }

  /**
   * Before the flop the round opens in order exactly if the small blind is all-in or the big blind posts more than it.
   */
  lemma HandOpensFairly(t: Table, order: seq<Card>, small: int, big: int)
    requires Placed(t) && |t.seats| <= 10 && |order| == 52 && NoDebts(t.seats) && 0 < small < big
    requires |NonBusted(ResetSeats(t.seats))| >= 2
    ensures var h := StartHand(t, order, small, big);
            (Fair(h, {}) <==> t.seats[HandBlinds(t).0].chips <= small || t.seats[HandBlinds(t).1].chips > small)
            && h.lastRaiser.Some? && !h.complete
  {
    hide StartHand, HandBlinds, Fair;
    var h := StartHand(t, order, small, big);
    StartHandOpening(t, order, small, big);
    StartHandOrder(t, order, small, big);
    assert SeatsSound(h.seats) by { StartHandLedger(t, order, small, big); }
    OpeningIsFair(t, h, HandBlinds(t).0, HandBlinds(t).1, small, big);
  }

  lemma StartHandOrder(t: Table, order: seq<Card>, small: int, big: int)
    requires Placed(t) && |t.seats| <= 10 && |order| == 52 && NoDebts(t.seats) && 0 < small < big
    requires |NonBusted(ResetSeats(t.seats))| >= 2
    ensures var h := StartHand(t, order, small, big);
            && h.cur in NonBusted(ResetSeats(t.seats))
            && forall i :: i in ActiveSeats(h) ==>
                  Dist(|h.seats|, HandBlinds(t).1, h.cur) <= Dist(|h.seats|, HandBlinds(t).1, i)
  {
    hide SeatsIn, IndexOf, StartHand, Opening;
    var h := StartHand(t, order, small, big);
    StartHandOpening(t, order, small, big);
    OpeningDealt(t, order, small, big);
    var b := Blinded(t, order, small, big);
    var d := DealHole(b);
    var players := SeatsIn(h.seats, {Active, AllIn});
    assert d.seats == h.seats;
    BlindedDealer(t, order, small, big);
    FirstAfterBigBlind(d, players);
    forall i | i in ActiveSeats(h)
      ensures Dist(|h.seats|, HandBlinds(t).1, h.cur) <= Dist(|h.seats|, HandBlinds(t).1, i)
    {
      assert i in players;
      var k :| 0 <= k < |players| && players[k] == i;
    }
  }

  lemma BlindedDealer(t: Table, order: seq<Card>, small: int, big: int)
    requires Placed(t) && |NonBusted(ResetSeats(t.seats))| >= 2
    ensures Blinded(t, order, small, big).dealer == NextDealer(ResetSeats(t.seats), t.dealer)
    ensures NextDealer(ResetSeats(t.seats), t.dealer) in NonBusted(ResetSeats(t.seats))
    ensures HandBlinds(t) == BlindSeats(NonBusted(ResetSeats(t.seats)), NextDealer(ResetSeats(t.seats), t.dealer))
  {
    ButtonIsPlayed(ClearTable(t, order));
  }

  lemma OpeningIsFair(t: Table, h: Table, sb: nat, bb: nat, small: int, big: int)
    requires Opening(t, h, sb, bb, small, big) && 0 < small < big && NoDebts(t.seats)
             && Placed(h) && SeatsSound(h.seats)
    requires forall i :: i in ActiveSeats(h) ==> Dist(|h.seats|, bb, h.cur) <= Dist(|h.seats|, bb, i)
    ensures Fair(h, {}) <==> t.seats[sb].chips <= small || t.seats[bb].chips > small
  {
    forall i: nat | i < |t.seats|
      ensures h.seats[i].bet + h.seats[i].chips == t.seats[i].chips && (i == sb || i == bb || h.seats[i].bet == 0)
      ensures i in ActiveSeats(h) <==> h.seats[i].chips > 0 && t.seats[i].chips > 0
    {
      assert OpeningSeat(t.seats[i], h.seats[i], i == sb || i == bb);
    }
    assert InOrder(h, {}, bb);
  }

  // ---------------------------------------------------------------- whole rounds

  /** The turn passes a seat that cannot act; nothing else changes. */
  lemma SkipIsFair(t: Table)
    requires Fair(t, {}) && t.seats[t.cur].status != Active && ActiveSeats(t) != {} && t.lastRaiser.Some?
    ensures Fair(Advance(t), {})
  {
    hide Advance, Dist, Scan;
    TurnPasses(t);
    var t2 := Advance(t);
    assert ActiveSeats(t2) == ActiveSeats(t);
    if !t.raised {
      var n, bb := |t.seats|, t.lastRaiser.value;
      TurnMoves(n, bb, t.cur, t2.cur, ActiveSeats(t));
      SameDistance(n, bb, t.cur, t2.cur);
      assert InOrder(t2, {}, bb);
    }
  }

  /** What the driver makes of a decision: a refused one counts as a fold. */
  function Effective(t: Table, d: Decision): Decision
    requires Placed(t)
  {
    if Accepts(t, t.cur, d.action, d.amount) then d else Decision(Fold, 0)
  }

  /** The driver loop of `Drive`, keeping track of who has acted since the last raise. */
  function Play(t: Table, acted: set<nat>, agents: nat -> Decision, i: nat, k: nat): (r: (Table, set<nat>))
    requires Placed(t)
    decreases k
  {
    if k == 0 || t.complete then (t, acted)
    else
      var t' := DriverStep(t, agents(i));
      Play(t', if t.seats[t.cur].status == Active then ActedAfter(t, acted, t') else acted, agents, i + 1, k - 1)
  }

  lemma {:induction false} PlayIsDrive(t: Table, acted: set<nat>, agents: nat -> Decision, i: nat, k: nat)
    requires Placed(t)
    ensures Play(t, acted, agents, i, k).0 == Drive(t, agents, i, k)
    decreases k
  {
    hide DriverStep;
    if k > 0 && !t.complete {
      var t' := DriverStep(t, agents(i));
      PlayIsDrive(t', if t.seats[t.cur].status == Active then ActedAfter(t, acted, t') else acted,
        agents, i + 1, k - 1);
    }
  }

  ghost predicate PositiveRaises(agents: nat -> Decision) {
    forall i: nat :: agents(i).action == Raise ==> agents(i).amount > 0
  }

  predicate PassesOver(t: Table, d: Decision)
    requires Placed(t)
  {
    SkippingRaise(t, d.action, d.amount)
  }

  /** Of the next `k` turns none is a raise that passes somebody over. */
  predicate Careful(t: Table, agents: nat -> Decision, i: nat, k: nat)
    requires Placed(t)
    decreases k
  {
    k == 0 || t.complete
    || ((t.seats[t.cur].status == Active ==> !PassesOver(t, Effective(t, agents(i))))
        && Careful(DriverStep(t, agents(i)), agents, i + 1, k - 1))
  }

  lemma {:induction false} PositiveRaisesAreCareful(t: Table, agents: nat -> Decision, i: nat, k: nat)
    requires Placed(t) && PositiveRaises(agents)
    ensures Careful(t, agents, i, k)
    decreases k
  {
    hide DriverStep;
    if k > 0 && !t.complete { PositiveRaisesAreCareful(DriverStep(t, agents(i)), agents, i + 1, k - 1); }
  }

  lemma ActiveSeatsShrink(t: Table, d: Decision)
    requires Placed(t)
    ensures ActiveSeats(DriverStep(t, d)) <= ActiveSeats(t)
  {
    var e := Effective(t, d);
    if t.seats[t.cur].status == Active {
      var t1 := TakeAction(t, e.action, e.amount);
      assert DriverStep(t, d).seats == t1.seats;
      forall z | z in ActiveSeats(t1) ensures z in ActiveSeats(t) { }
    }
  }

  lemma {:induction false} ActiveSeatsOnlyShrink(t: Table, agents: nat -> Decision, i: nat, k: nat)
    requires Placed(t)
    ensures ActiveSeats(Drive(t, agents, i, k)) <= ActiveSeats(t)
    decreases k
  {
    hide ActiveSeats, DriverStep;
    if k > 0 && !t.complete {
      ActiveSeatsShrink(t, agents(i));
      ActiveSeatsOnlyShrink(DriverStep(t, agents(i)), agents, i + 1, k - 1);
    }
  }

  /** The opener of an unbet round is not at turn again while the round is open. */
  lemma OpenRoundIsPastOpener(t: Table)
    requires exists acted :: Fair(t, acted)
    requires !RoundCloses(t) && |ActiveSeats(t)| >= 2 && t.lastRaiser.None?
    ensures FirstActor(t) != Some(t.cur)
  {
    var acted :| Fair(t, acted);
    CloseTest(t, t);
    assert AllMatched(t);
  }

  lemma TurnIsFair(t: Table, acted: set<nat>, d: Decision)
    requires Fair(t, acted) && !t.complete && t.seats[t.cur].status == Active
    requires Placed(t) && !PassesOver(t, Effective(t, d))
    requires t.lastRaiser.None? && FirstActor(t) == Some(t.cur) ==> Effective(t, d).action != Fold
    requires |ActiveSeats(DriverStep(t, d))| >= 2
    ensures var t' := DriverStep(t, d);
            FairOutcome(t', ActedAfter(t, acted, t'))
            && (!t'.complete && t'.lastRaiser.None? ==> PastOpener(t'))
  {
    hide Fair, RoundCloses, FirstActor, TakeAction, Advance, SomebodyWaits, Undercuts;
    var e := Effective(t, d);
    FoldIsAccepted(t);
    StepIsFair(t, acted, e.action, e.amount);
    var t' := DriverStep(t, d);
    if !t'.complete && t'.lastRaiser.None? {
      assert Fair(t', ActedAfter(t, acted, t'));
      StepOpenMeansNotClosed(t, e);
      OpenRoundIsPastOpener(t');
      assert t'.seats[t'.cur].status == Active by { StepLeavesActive(t, e); }
    }
  }

  /** The turn is at a player who can act, but not at the opener. */
  predicate PastOpener(t: Table)
    requires Placed(t)
  {
    FirstActor(t) != Some(t.cur) && t.seats[t.cur].status == Active
  }

  lemma StepLeavesActive(t: Table, d: Decision)
    requires Placed(t) && Accepts(t, t.cur, d.action, d.amount)
             && |ActiveSeats(Step(t, t.cur, d.action, d.amount))| >= 2
    ensures var t' := Step(t, t.cur, d.action, d.amount); t'.seats[t'.cur].status == Active
  {
    var t1 := TakeAction(t, d.action, d.amount);
    assert ActiveSeats(Step(t, t.cur, d.action, d.amount)) == ActiveSeats(t1);
    TurnPasses(t1);
  }

  lemma StepOpenMeansNotClosed(t: Table, d: Decision)
    requires Placed(t) && Accepts(t, t.cur, d.action, d.amount)
    ensures !Step(t, t.cur, d.action, d.amount).complete ==> !RoundCloses(Step(t, t.cur, d.action, d.amount))
  {
    var t2 := Advance(TakeAction(t, d.action, d.amount));
    var t' := Step(t, t.cur, d.action, d.amount);
    if !t'.complete { assert t' == t2; }
  }

  /** From a state in order, past the opener, the round closes with nobody skipped. */
  lemma {:induction false} RestOfRoundIsFair(t: Table, acted: set<nat>, agents: nat -> Decision, i: nat, k: nat)
    requires Placed(t) && Fair(t, acted) && !t.complete && Careful(t, agents, i, k)
    requires t.lastRaiser.None? ==> PastOpener(t)
    ensures var (t', acted') := Play(t, acted, agents, i, k);
            t'.complete && |ActiveSeats(t')| >= 2 ==> EverybodyActed(t', acted')
    decreases k
  {
    hide Fair, FirstActor, DriverStep, EverybodyActed, ActiveSeats, SkippingRaise;
    var (t', acted') := Play(t, acted, agents, i, k);
    if k > 0 && t'.complete && |ActiveSeats(t')| >= 2 {
      var u := DriverStep(t, agents(i));
      FinalPlayersWereThere(t, acted, agents, i, k);
      if t.seats[t.cur].status == Active {
        TurnIsFair(t, acted, agents(i));
        if !u.complete { RestOfRoundIsFair(u, ActedAfter(t, acted, u), agents, i + 1, k - 1); }
      } else {
        DriverSkips(t, acted, agents(i));
        RestOfRoundIsFair(u, acted, agents, i + 1, k - 1);
      }
    }
  }

  lemma FinalPlayersWereThere(t: Table, acted: set<nat>, agents: nat -> Decision, i: nat, k: nat)
    requires Placed(t) && !t.complete && k > 0 && |ActiveSeats(Play(t, acted, agents, i, k).0)| >= 2
    ensures |ActiveSeats(DriverStep(t, agents(i)))| >= 2
  {
    hide ActiveSeats, DriverStep;
    var u := DriverStep(t, agents(i));
    PlayIsDrive(t, acted, agents, i, k);
    ActiveSeatsOnlyShrink(u, agents, i + 1, k - 1);
    SubsetSize(ActiveSeats(Drive(t, agents, i, k)), ActiveSeats(u));
  }

  lemma DriverSkips(t: Table, acted: set<nat>, d: Decision)
    requires Fair(t, acted) && !t.complete && t.seats[t.cur].status != Active && t.lastRaiser.Some?
    requires |ActiveSeats(DriverStep(t, d))| >= 2
    ensures var u := DriverStep(t, d); Fair(u, acted) && !u.complete && u.lastRaiser.Some?
  {
    assert ActiveSeats(DriverStep(t, d)) == ActiveSeats(t);
    SkipIsFair(t);
    TurnPasses(t);
  }

  /** A round without bets closes at once when its opener folds, and the others never acted. */
  lemma OpenerFoldCloses(t: Table)
    requires Fair(t, {}) && !t.complete && t.lastRaiser.None? && FirstActor(t) == Some(t.cur)
    requires |ActiveSeats(Step(t, t.cur, Fold, 0))| >= 2
    ensures var t' := Step(t, t.cur, Fold, 0);
            t'.complete && !EverybodyActed(t', ActedAfter(t, {}, t'))
  {
    hide RoundCloses, FirstActor, Fair;
    var t1 := TakeAction(t, Fold, 0);
    var t' := Step(t, t.cur, Fold, 0);
    FoldedOpener(t);
    assert ActiveSeats(t') == ActiveSeats(t1);
    TurnPasses(t1);
    var y := Advance(t1).cur;
    CloseTest(t1, Advance(t1));
    UnbetIsMatched(t, t1, {});
    OpenerFoldSkips(t, t1, {}, y);
    assert y in ActiveSeats(t') && y !in ActedAfter(t, {}, t');
  }

  lemma FoldedOpener(t: Table)
    requires Fair(t, {}) && !t.complete && t.lastRaiser.None? && t.seats[t.cur].status == Active
    requires |ActiveSeats(Step(t, t.cur, Fold, 0))| >= 2
    ensures QuietBeforeBet(t, TakeAction(t, Fold, 0), {})
  {
    ActionEffect(t, Fold, 0);
    assert ActiveSeats(Step(t, t.cur, Fold, 0)) == ActiveSeats(TakeAction(t, Fold, 0));
  }

  /**
   * Nobody is skipped. Take any round that opens in order, any decisions without a raise that passes somebody over (as
   * no positive raise does), and any number of turns after which the round is complete with at least two players still
   * able to act. Then each of them has matched the bet and has acted since the last raise, unless the opener of a round
   * without bets folded: then somebody never got to act.
   */
  lemma NobodyIsSkipped(t: Table, agents: nat -> Decision, i: nat, k: nat)
    requires Placed(t) && Fair(t, {}) && !t.complete && Careful(t, agents, i, k)
    requires t.lastRaiser.None? ==> FirstActor(t) == Some(t.cur)
    requires Play(t, {}, agents, i, k).0.complete && |ActiveSeats(Play(t, {}, agents, i, k).0)| >= 2
    ensures EverybodyActed(Play(t, {}, agents, i, k).0, Play(t, {}, agents, i, k).1)
       <==> !(t.lastRaiser.None? && Effective(t, agents(i)).action == Fold)
  {
    hide Fair, FirstActor, EverybodyActed, ActiveSeats, Step, RoundCloses, SkippingRaise;
    FinalPlayersWereThere(t, {}, agents, i, k);
    if t.lastRaiser.Some? {
      RestOfRoundIsFair(t, {}, agents, i, k);
    } else {
      var u := DriverStep(t, agents(i));
      if Effective(t, agents(i)).action == Fold {
        FoldIgnoresAmount(t, agents(i));
        OpenerFoldCloses(t);
      } else {
        TurnIsFair(t, {}, agents(i));
        if !u.complete { RestOfRoundIsFair(u, ActedAfter(t, {}, u), agents, i + 1, k - 1); }
      }
    }
  }

  lemma FoldIgnoresAmount(t: Table, d: Decision)
    requires Placed(t) && t.seats[t.cur].status == Active && Effective(t, d).action == Fold
    ensures DriverStep(t, d) == Step(t, t.cur, Fold, 0)
  {
    hide Advance, RoundCloses;
    assert TakeAction(t, Fold, d.amount) == TakeAction(t, Fold, 0);
    FoldIsAccepted(t);
  }

  // ---------------------------------------------------------------- no round closes over a debt

  /** Two or more players are left in the hand, and one of them who can act has bet less than the bet to match. */
  ghost predicate Indebted(t: Table) {
    |Remaining(t.seats)| >= 2 && exists i :: i in ActiveSeats(t) && t.seats[i].bet < t.currentBet
  }

  lemma StepOwesNothing(t: Table, d: Decision)
    requires Placed(t) && !t.complete && Accepts(t, t.cur, d.action, d.amount)
    ensures var u := Step(t, t.cur, d.action, d.amount); u.complete ==> !Indebted(u)
  {
    hide Scan, RoundCloses, AllMatched, Returned;
    var t1, u := TakeAction(t, d.action, d.amount), Step(t, t.cur, d.action, d.amount);
    assert ActiveSeats(u) == ActiveSeats(t1);
    if |ActiveSeats(u)| <= 1 {
      FewActiveClose(t, d.action, d.amount);
    } else if u.complete {
      TurnPasses(t1);
      CloseTest(t1, Advance(t1));
      MatchedOwesNothing(t1, u);
    }
  }

  lemma MatchedOwesNothing(t: Table, u: Table)
    requires AllMatched(t) && u.seats == t.seats && u.currentBet == t.currentBet
    ensures !Indebted(u)
  {
    assert forall i :: i in ActiveSeats(u) ==> t.seats[i].bet == t.currentBet;
  }

  lemma TurnOwesNothing(t: Table, d: Decision)
    requires Placed(t) && !t.complete
    ensures DriverStep(t, d).complete ==> !Indebted(DriverStep(t, d))
  {
    hide Step, Scan;
    if t.seats[t.cur].status == Active {
      FoldIsAccepted(t);
      var e := Effective(t, d);
      StepOwesNothing(t, e);
    } else if ActiveSeats(t) != {} {
      TurnPasses(t);
    } else {
      assert ActiveSeats(Advance(t)) == {};
    }
  }

  /** Whatever the players decide, with whatever amounts, no round closes while somebody in it owes chips. */
  lemma {:induction false} ClosedOwesNothing(t: Table, agents: nat -> Decision, i: nat, k: nat)
    requires Placed(t) && (t.complete ==> !Indebted(t))
    ensures Drive(t, agents, i, k).complete ==> !Indebted(Drive(t, agents, i, k))
    decreases k
  {
    hide DriverStep, Indebted;
    if k > 0 && !t.complete {
      TurnOwesNothing(t, agents(i));
      ClosedOwesNothing(DriverStep(t, agents(i)), agents, i + 1, k - 1);
    }
  }

  // ---------------------------------------------------------------- where the promise fails

  /** On every street after the flop with three or more players able to act, a fold by the opener ends the betting. */
  lemma OpenerFoldEndsTheStreet(t: Table)
    requires Placed(t) && SeatsSound(t.seats) && t.phase != Preflop && |ActiveSeats(t)| >= 3
    ensures var r := StartRound(t); var u := Step(r, r.cur, Fold, 0);
            u.complete && |ActiveSeats(u)| >= 2 && !EverybodyActed(u, ActedAfter(r, {}, u))
  {
    hide Step, FirstActor, EverybodyActed;
    NewRoundOpens(t);
    var r := StartRound(t);
    NewRoundIsFair(t);
    FoldRemovesOne(r);
    OpenerFoldCloses(r);
  }

  /** On every street after the flop a raise by nothing of the opener ends the betting before anybody else has acted. */
  lemma OpenerZeroRaiseEndsTheStreet(t: Table)
    requires Placed(t) && SeatsSound(t.seats) && t.phase != Preflop && |ActiveSeats(t)| >= 2
    ensures var r := StartRound(t); var u := Step(r, r.cur, Raise, 0);
            && Accepts(r, r.cur, Raise, 0) && u.complete && ActiveSeats(u) == ActiveSeats(t)
            && r.cur in ActiveSeats(u) && ActedAfter(r, {}, u) == {r.cur}
  {
    hide FirstActor, RoundCloses, Scan;
    NewRoundOpens(t);
    var r := StartRound(t);
    NothingBetYet(t);
    var r1 := TakeAction(r, Raise, 0);
    assert r1.seats == r.seats && r1.currentBet == 0 && AllMatched(r1);
    assert ActiveSeats(r1) == ActiveSeats(r);
    TurnPasses(r1);
    CloseTest(r1, Advance(r1));
    assert ActiveSeats(Step(r, r.cur, Raise, 0)) == ActiveSeats(r1);
  }

  lemma NothingBetYet(t: Table)
    requires Placed(t) && SeatsSound(t.seats)
    ensures var r := StartRound(t);
            r.currentBet == 0 && forall i :: 0 <= i < |r.seats| ==> r.seats[i].bet == 0 && r.seats[i].chips >= 0
  {
    hide FirstActor;
  }

  lemma NewRoundOpens(t: Table)
    requires Placed(t) && t.phase != Preflop && ActiveSeats(t) != {}
    ensures var r := StartRound(t);
            !r.complete && r.lastRaiser.None? && ActiveSeats(r) == ActiveSeats(t) && r.seats[r.cur].status == Active
  {
    var c := RoundCleared(t);
    assert ActiveSeats(c) == ActiveSeats(t);
    FirstActorIsNearest(c);
    assert StartRound(t) == c.(cur := StartRound(t).cur);
  }

  lemma FoldRemovesOne(t: Table)
    requires Placed(t) && t.seats[t.cur].status == Active
    ensures |ActiveSeats(Step(t, t.cur, Fold, 0))| == |ActiveSeats(t)| - 1
  {
    var u := TakeAction(t, Fold, 0);
    FoldIsAccepted(t);
    assert Step(t, t.cur, Fold, 0).seats == u.seats;
    assert ActiveSeats(u) == ActiveSeats(t) - {t.cur};
    assert t.cur in ActiveSeats(t);
  }

  /** A bet by 1, a raise by -1, and calls from then on. */
  function Undercutting(i: nat): Decision {
    if i == 0 then Decision(Raise, 1) else if i == 1 then Decision(Raise, -1) else Decision(Call, 0)
  }

  /** A raise by less than nothing can keep a street open for ever, if its opener has two chips. */
  lemma NegativeRaiseNeverEnds(t: Table, k: nat)
    requires Placed(t) && SeatsSound(t.seats) && t.phase != Preflop && |ActiveSeats(t)| >= 2
    requires var r := StartRound(t); r.seats[r.cur].chips >= 2
    ensures !Standoff(StartRound(t)) && !Drive(StartRound(t), Undercutting, 0, k).complete
  {
    hide StartRound, DriverStep, Standoff;
    var r := StartRound(t);
    NewRoundHasNoStandoff(t);
    NewRoundOpens(t);
    NothingBetYet(t);
    StartRoundIsSound(t);
    OneChipBet(r);
    var u := DriverStep(r, Decision(Raise, 1));
    UndercutOneChip(u, r.cur);
    var v := DriverStep(u, Decision(Raise, -1));
    if k >= 2 {
      assert Drive(r, Undercutting, 0, k) == Drive(u, Undercutting, 1, k - 1) == Drive(v, Undercutting, 2, k - 2);
      StandoffRuns(v, Undercutting, 2, k - 2);
    } else {
      assert k == 1 ==> Drive(r, Undercutting, 0, 1) == Drive(u, Undercutting, 1, 0);
    }
  }

  lemma UndercutOneChip(u: Table, o: nat)
    requires Placed(u) && SeatsSound(u.seats) && !u.complete && u.currentBet == 1
    requires u.seats[u.cur].status == Active && u.seats[u.cur].bet == 0
    requires o < |u.seats| && o != u.cur && u.seats[o].status == Active && u.seats[o].bet == 1
    ensures var v := DriverStep(u, Decision(Raise, -1)); SeatsSound(v.seats) && !v.complete && Standoff(v)
  {
    hide Step, Standoff;
    RaiseIntoStandoff(u, -1);
  }

  lemma StandoffRuns(t: Table, agents: nat -> Decision, i: nat, k: nat)
    requires Placed(t) && SeatsSound(t.seats) && !t.complete && Standoff(t)
    requires forall j: nat :: j >= i ==> agents(j) == Decision(Call, 0)
    ensures !Drive(t, agents, i, k).complete
  {
    var o, p :| StandoffBetween(t, o, p);
    StandoffLasts(t, o, p, agents, i, k);
  }

  lemma StartRoundIsSound(t: Table)
    requires Placed(t) && SeatsSound(t.seats)
    ensures SeatsSound(StartRound(t).seats)
  {
    hide FirstActor;
  }

  /** The opener bets one chip: the turn goes to somebody who owes it. */
  lemma OneChipBet(r: Table)
    requires Placed(r) && SeatsSound(r.seats) && !r.complete && r.currentBet == 0 && |ActiveSeats(r)| >= 2
    requires forall i :: 0 <= i < |r.seats| ==> r.seats[i].bet == 0
    requires r.seats[r.cur].status == Active && r.seats[r.cur].chips >= 2
    ensures var u := DriverStep(r, Decision(Raise, 1));
            && !u.complete && u.currentBet == 1 && SeatsSound(u.seats) && |u.seats| == |r.seats|
            && u.cur != r.cur && u.seats[u.cur].status == Active && u.seats[u.cur].bet == 0
            && u.seats[r.cur].status == Active && u.seats[r.cur].bet == 1
  {
    hide RoundCloses, Scan, Returned;
    var t1 := TakeAction(r, Raise, 1);
    ActingSeatMoves(r, Raise, 1);
    assert ActiveSeats(t1) == ActiveSeats(r);
    TurnPasses(t1);
    var y := Advance(t1).cur;
    SomebodyElse(ActiveSeats(t1), r.cur);
    var z :| z in ActiveSeats(t1) && z != r.cur;
    FarthestFromItself(|r.seats|, r.cur, z);
    SameDistance(|r.seats|, r.cur, z, r.cur);
    assert t1.seats[y].bet == 0 && !AllMatched(t1);
    CloseTest(t1, Advance(t1));
  }
}
