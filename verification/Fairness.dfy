/**
 * Nobody is skipped: when a betting round closes, every player who could still act has acted since the last raise
 * and has matched it (poker/game.py:617-809).
 */
module Fairness {
  import opened Prelude
  import opened TableModel
  import opened Bookkeeping
  import opened Closing

  // ---------------------------------------------------------------- turn order

  /**
   * Seat `y` is the next of the seats `act` after `x`. Seen from seat `a`, either the turn moves on to `y`, passing
   * nobody, or it has been everywhere and `y` is the first seat again.
   */
  lemma TurnMoves(n: nat, a: nat, x: nat, y: nat, act: set<nat>)
    requires a < n && x < n && y < n && y in act
    requires forall z :: z in act ==> z < n && Dist(n, x, y) <= Dist(n, x, z)
    ensures || (Dist(n, a, y) > Dist(n, a, x)
                && forall z :: z in act && Dist(n, a, z) > Dist(n, a, x) ==> Dist(n, a, y) <= Dist(n, a, z))
            || (Dist(n, a, y) <= Dist(n, a, x)
                && forall z :: z in act ==> Dist(n, a, y) <= Dist(n, a, z) <= Dist(n, a, x))
  {
  }

  function ActiveSeats(t: Table): set<nat> {
    Holding(t.seats, {Active})
  }

  // ---------------------------------------------------------------- the invariant of a round

  /** `acted` are the seats that have acted since the round opened or the bet was last raised. */
  ghost predicate InOrder(t: Table, acted: set<nat>, anchor: nat)
    requires Placed(t) && anchor < |t.seats|
  {
    forall i :: i in ActiveSeats(t) ==>
      (i in acted <==> Dist(|t.seats|, anchor, i) < Dist(|t.seats|, anchor, t.cur))
  }

  /** After a raise: those who have acted since are those who have matched it. */
  ghost predicate FairAfterRaise(t: Table, acted: set<nat>) {
    forall i :: i in ActiveSeats(t) ==> (i in acted <==> t.seats[i].bet == t.currentBet)
  }

  /** Before the first raise of the hand: the big blind acts last, and who has not acted has not matched it. */
  ghost predicate FairBeforeRaise(t: Table, acted: set<nat>, bb: nat)
    requires Placed(t) && bb < |t.seats|
  {
    && InOrder(t, acted, bb)
    && (forall i :: i in ActiveSeats(t) && i != bb ==> (i in acted <==> t.seats[i].bet == t.currentBet))
    && (bb in ActiveSeats(t) ==> t.seats[bb].bet == t.currentBet)
  }

  /** After the flop, before the first bet: the players act in turn from the dealer's left. */
  ghost predicate FairBeforeBet(t: Table, acted: set<nat>)
    requires Placed(t)
  {
    && t.phase != Preflop
    && InOrder(t, acted, t.dealer)
    && (forall i :: i in ActiveSeats(t) ==> t.seats[i].bet == t.currentBet)
  }

  ghost predicate Fair(t: Table, acted: set<nat>) {
    && Placed(t) && SeatsSound(t.seats)
    && (t.seats[t.cur].status == Active || acted == {})
    && (forall i :: i in ActiveSeats(t) ==> t.seats[i].bet <= t.currentBet)
    && (if t.lastRaiser.None? then FairBeforeBet(t, acted)
        else if t.raised then FairAfterRaise(t, acted)
        else FairBeforeRaise(t, acted, t.lastRaiser.value))
  }

  ghost predicate EverybodyActed(t: Table, acted: set<nat>) {
    forall i :: i in ActiveSeats(t) ==> i in acted && t.seats[i].bet == t.currentBet
  }

  /** The seats that have acted, after a step from `t` to `t'`. */
  function ActedAfter(t: Table, acted: set<nat>, t': Table): set<nat> {
    if t'.currentBet > t.currentBet then {t.cur} else acted + {t.cur}
  }

  /** The opening player of a round without bets folds. */
  predicate OpenerFolds(t: Table, action: Action)
    requires Placed(t)
  {
    action == Fold && t.lastRaiser.None? && FirstActor(t) == Some(t.cur)
  }

  /**
   * Somebody else has matched the bet without having acted: before a bet, a player further from the dealer than the
   * one to act; before a raise, the big blind.
   */
  predicate SomebodyWaits(t: Table)
    requires Placed(t)
  {
    if t.lastRaiser.None? then
      exists i :: i in ActiveSeats(t) && Dist(|t.seats|, t.dealer, i) > Dist(|t.seats|, t.dealer, t.cur)
    else
      !t.raised && t.lastRaiser.value in ActiveSeats(t) && t.lastRaiser.value != t.cur
  }

  /** Somebody else has already bet that much. */
  predicate Undercuts(t: Table, bet: int) {
    exists i :: i in ActiveSeats(t) && i != t.cur && t.seats[i].bet >= bet
  }

  /**
   * A raise that passes somebody over: it leaves the bet to match as it is while somebody waits, or lowers it to what
   * another player has already bet, or below.
   */
  predicate SkippingRaise(t: Table, action: Action, amount: int)
    requires Placed(t)
  {
    && action == Raise && amount <= 0
    && if RaisedBet(t, amount) == t.currentBet then SomebodyWaits(t)
       else Undercuts(t, RaisedBet(t, amount))
  }

  /** The round goes on in order, or it closes and nobody was skipped. */
  ghost predicate FairOutcome(t': Table, acted': set<nat>) {
    if t'.complete then EverybodyActed(t', acted') else Fair(t', acted')
  }

  // ---------------------------------------------------------------- one step

  lemma CountActive(t: Table)
    ensures |SeatsIn(t.seats, {Active})| == |ActiveSeats(t)|
    ensures forall i :: i in SeatsIn(t.seats, {Active}) <==> i in ActiveSeats(t)
  {
  }

  /** The turn has moved on to the next player who can act. */
  ghost predicate Passed(t1: Table, t2: Table)
    requires Placed(t1)
  {
    && t2 == t1.(cur := t2.cur) && t2.cur < |t1.seats| && t2.cur in ActiveSeats(t1)
    && forall z :: z in ActiveSeats(t1) ==> Dist(|t1.seats|, t1.cur, t2.cur) <= Dist(|t1.seats|, t1.cur, z)
  }

  lemma TurnPasses(t1: Table)
    requires Placed(t1) && ActiveSeats(t1) != {}
    ensures Passed(t1, Advance(t1))
  {
    var z :| z in ActiveSeats(t1);
    assert Dist(|t1.seats|, t1.cur, z) <= |t1.seats|;
    assert Scan(t1.seats, t1.cur, 1, |t1.seats|).Some?;
  }

  /** Which test closes a round in which all bets are matched. */
  ghost predicate Returned(t1: Table, y: nat)
    requires Placed(t1)
  {
    if t1.lastRaiser.None? then FirstActor(t1) == Some(y)
    else t1.raised || t1.lastRaiser.value !in ActiveSeats(t1) || NextActiveFrom(t1, t1.lastRaiser.value) == Some(y)
  }

  /** With two players able to act, the round closes exactly if all bets are matched and one of those tests succeeds. */
  lemma CloseTest(t1: Table, t2: Table)
    requires Placed(t1) && Placed(t2) && t2 == t1.(cur := t2.cur) && |ActiveSeats(t1)| >= 2
    ensures RoundCloses(t2) <==> AllMatched(t1) && Returned(t1, t2.cur)
  {
    hide Scan, SeatsIn, FirstActor, NextActiveFrom, AllMatched;
    CountActive(t1);
    SameTests(t1, t2);
  }

  /** Whose turn it is has no part in the tests themselves. */
  lemma SameTests(t1: Table, t2: Table)
    requires Placed(t1) && Placed(t2) && t2 == t1.(cur := t2.cur)
    ensures AllMatched(t2) == AllMatched(t1) && FirstActor(t2) == FirstActor(t1)
    ensures t1.lastRaiser.Some? ==> NextActiveFrom(t2, t1.lastRaiser.value) == NextActiveFrom(t1, t1.lastRaiser.value)
  {
    hide Scan, SeatsIn, BigBlindSeat, FirstActor;
    var anchor := if t1.phase == Preflop then BigBlindSeat(t1.seats) else Some(t1.dealer);
    FirstActorSearch(t1, anchor);
    FirstActorSearch(t2, anchor);
  }

  /** After the flop the first actor is the nearest player after the dealer, the dealer being the last. */
  lemma FirstActorIsNearest(t: Table)
    requires Placed(t) && t.phase != Preflop && ActiveSeats(t) != {}
    ensures FirstActor(t).Some? && FirstActor(t).value in ActiveSeats(t)
    ensures forall z :: z in ActiveSeats(t) ==>
              Dist(|t.seats|, t.dealer, FirstActor(t).value) <= Dist(|t.seats|, t.dealer, z)
  {
    CountActive(t);
    var z :| z in ActiveSeats(t);
    var found := Scan(t.seats, t.dealer, 1, |t.seats| - 1);
    if found.None? {
      forall z | z in ActiveSeats(t) ensures z == t.dealer { }
      assert SeatsIn(t.seats, {Active})[0] in SeatsIn(t.seats, {Active});
    }
  }

  /**
   * Before the flop the first actor is the nearest player after the seat marked as big blind, that seat being the last;
   * without such a mark it is the first player in seat order.
   */
  lemma FirstActorBeforeFlop(t: Table)
    requires Placed(t) && t.phase == Preflop && ActiveSeats(t) != {}
    ensures FirstActor(t).Some? && FirstActor(t).value in ActiveSeats(t)
    ensures forall b: nat ::
              b < |t.seats| && t.seats[b].isBigBlind && (forall j :: 0 <= j < b ==> !t.seats[j].isBigBlind) ==>
              forall z :: z in ActiveSeats(t) ==> Dist(|t.seats|, b, FirstActor(t).value) <= Dist(|t.seats|, b, z)
    ensures (forall j :: 0 <= j < |t.seats| ==> !t.seats[j].isBigBlind) ==>
              forall z :: z in ActiveSeats(t) ==> FirstActor(t).value <= z
  {
    hide SeatsIn, BigBlindSeat, FirstActor, Scan;
    CountActive(t);
    var active, bb := SeatsIn(t.seats, {Active}), BigBlindSeat(t.seats);
    FirstActorSearch(t, bb);
    var z :| z in ActiveSeats(t);
    assert z in active && active[0] in active;
    if bb.Some? {
      OnlyAnchorLeft(t, bb.value);
    } else {
      forall z | z in ActiveSeats(t) ensures active[0] <= z { assert z in active; }
    }
  }

  /** A scan that finds nobody leaves only the seat it started from. */
  lemma OnlyAnchorLeft(t: Table, b: nat)
    requires Placed(t) && b < |t.seats| && ActiveSeats(t) != {}
    ensures var found, active := Scan(t.seats, b, 1, |t.seats| - 1), SeatsIn(t.seats, {Active});
            && active != []
            && var first := if found.Some? then found.value else active[0];
               forall z :: z in ActiveSeats(t) ==>
                 first < |t.seats| && Dist(|t.seats|, b, first) <= Dist(|t.seats|, b, z)
  {
    hide SeatsIn, Scan;
    CountActive(t);
    var found, active := Scan(t.seats, b, 1, |t.seats| - 1), SeatsIn(t.seats, {Active});
    var z :| z in ActiveSeats(t);
    assert z in active && active[0] in active;
    if found.None? {
      forall z | z in ActiveSeats(t) ensures z == b { }
      assert active[0] in ActiveSeats(t);
    }
  }

  /** What an action does to the seat of a player who has bet no more than the bet to match. */
  lemma ActionEffect(t: Table, action: Action, amount: int)
    requires Placed(t) && SeatsSound(t.seats) && Accepts(t, t.cur, action, amount) && Sensible(Decision(action, amount))
    requires t.seats[t.cur].bet <= t.currentBet
    ensures var t1, s' := TakeAction(t, action, amount), ActingSeat(t, action, amount);
            && SeatsSound(t1.seats) && t1.currentBet >= t.currentBet && t1.complete == t.complete
            && t1.phase == t.phase && t1.dealer == t.dealer
            && (s'.status == Active ==> s'.bet == t1.currentBet)
            && s'.bet <= t1.currentBet
            && (t1.currentBet > t.currentBet ==>
                  t1.lastRaiser == Some(t.cur) && t1.raised && action in {Raise, GoAllIn})
            && (t1.currentBet == t.currentBet && action != Raise ==>
                  t1.lastRaiser == t.lastRaiser && t1.raised == t.raised)
            && (action == Raise ==>
                  t1.lastRaiser == Some(t.cur) && t1.raised && (t1.currentBet > t.currentBet <==> amount > 0))
            && (action == GoAllIn && t.seats[t.cur].bet == t.currentBet ==> t1.currentBet > t.currentBet)
            && (action == Fold ==> s'.status == Folded)
            && ActiveSeats(t1) == if s'.status == Active then ActiveSeats(t) else ActiveSeats(t) - {t.cur}
  {
    var s := t.seats[t.cur];
    ActingSeatMoves(t, action, amount);
    match action {
      case Call => BetMoves(s, t.currentBet - s.bet);
      case Raise => BetMoves(s, t.currentBet - s.bet + amount);
      case GoAllIn => BetMoves(s, s.chips);
      case _ =>
    }
  }

  /** The state between the action and the next turn, as the cases below use it. */
  ghost predicate AfterAction(t: Table, t1: Table, acted: set<nat>) {
    && Fair(t, acted) && t.cur in ActiveSeats(t) && !t.complete
    && Placed(t1) && SeatsSound(t1.seats) && |t1.seats| == |t.seats| && t1.cur == t.cur && !t1.complete
    && t1.dealer == t.dealer && t1.phase == t.phase
    && t1.currentBet >= t.currentBet
    && (forall i :: 0 <= i < |t.seats| && i != t.cur ==> t1.seats[i] == t.seats[i])
    && (t1.seats[t.cur].status == Active ==> t1.seats[t.cur].bet == t1.currentBet)
    && ActiveSeats(t1) == (if t1.seats[t.cur].status == Active then ActiveSeats(t) else ActiveSeats(t) - {t.cur})
    && |ActiveSeats(t1)| >= 2
  }

  lemma StrictRaiseIsFair(t: Table, t1: Table, acted: set<nat>)
    requires AfterAction(t, t1, acted) && t1.currentBet > t.currentBet && t1.lastRaiser.Some? && t1.raised
    ensures FairOutcome(CheckComplete(Advance(t1)), {t.cur})
  {
    hide RoundCloses, Advance, Returned;
    TurnPasses(t1);
    CloseTest(t1, Advance(t1));
    SomebodyElse(ActiveSeats(t1), t.cur);
    var i :| i in ActiveSeats(t1) && i != t.cur;
    assert t1.seats[i].bet <= t.currentBet;
    assert !AllMatched(t1);
  }

  lemma SomebodyElse(s: set<nat>, x: nat)
    requires |s| >= 2
    ensures exists i :: i in s && i != x
  {
    if forall i :: i in s ==> i == x {
      assert s <= {x};
      SubsetSize(s, {x});
    }
  }

  lemma LaterClose(t: Table, t1: Table, acted: set<nat>, t': Table)
    requires AfterAction(t, t1, acted) && t1.currentBet == t.currentBet && AllMatched(t1)
    requires t' == t1.(cur := t'.cur, complete := true)
    ensures EverybodyActed(t', acted + {t.cur})
       <==> !exists i :: i in ActiveSeats(t) && i != t.cur && i !in acted && t.seats[i].bet == t.currentBet
  {
    hide Fair, SeatsSound;
    assert ActiveSeats(t') == ActiveSeats(t1);
  }

  /** After a raise, calls, folds and raises by nothing keep the invariant. */
  lemma LaterActionIsFair(t: Table, t1: Table, acted: set<nat>)
    requires AfterAction(t, t1, acted) && t1.currentBet == t.currentBet && t1.lastRaiser.Some? && t1.raised
    ensures FairOutcome(CheckComplete(Advance(t1)), acted + {t.cur})
       <==> !exists i :: i in ActiveSeats(t) && i != t.cur && i !in acted && t.seats[i].bet == t.currentBet
  {
    hide RoundCloses, Advance, SeatsSound, Dist, FirstActor, NextActiveFrom;
    var t2 := Advance(t1);
    TurnPasses(t1);
    CloseTest(t1, t2);
    assert ActiveSeats(t2) == ActiveSeats(t1);
    if RoundCloses(t2) {
      LaterClose(t, t1, acted, t2.(complete := true));
    } else {
      assert Fair(t2, acted + {t.cur}) <==> FairAfterRaise(t2, acted + {t.cur});
    }
  }

  ghost predicate QuietBeforeRaise(t: Table, t1: Table, acted: set<nat>) {
    AfterAction(t, t1, acted) && t1.currentBet == t.currentBet
    && t.lastRaiser.Some? && !t.raised && t1.lastRaiser == t.lastRaiser && !t1.raised
  }

  lemma BeforeRaiseIsFair(t: Table, t1: Table, acted: set<nat>)
    requires QuietBeforeRaise(t, t1, acted)
    ensures FairOutcome(CheckComplete(Advance(t1)), acted + {t.cur})
  {
    hide RoundCloses, Advance, Returned, AllMatched, Fair, SeatsSound;
    var t2 := Advance(t1);
    TurnPasses(t1);
    CloseTest(t1, t2);
    if RoundCloses(t2) {
      BeforeRaiseCloses(t, t1, acted, t2.cur);
    } else {
      BeforeRaiseGoesOn(t, t1, acted, t2.cur);
    }
  }

  lemma BeforeRaiseCloses(t: Table, t1: Table, acted: set<nat>, y: nat)
    requires QuietBeforeRaise(t, t1, acted) && Passed(t1, t1.(cur := y)) && AllMatched(t1) && Returned(t1, y)
    ensures EverybodyActed(t1, acted + {t.cur})
  {
    if t.lastRaiser.value in ActiveSeats(t1) { BigBlindActs(t, t1, acted, y); }
  }

  /** The turn moves from `x` on to `y`, as seen from `anchor`, and passes nobody. */
  ghost predicate MovesOn(t1: Table, anchor: nat, y: nat)
    requires Placed(t1) && anchor < |t1.seats| && y < |t1.seats|
  {
    && Dist(|t1.seats|, anchor, y) > Dist(|t1.seats|, anchor, t1.cur)
    && forall z :: z in ActiveSeats(t1) && Dist(|t1.seats|, anchor, z) > Dist(|t1.seats|, anchor, t1.cur)
                   ==> Dist(|t1.seats|, anchor, y) <= Dist(|t1.seats|, anchor, z)
  }

  lemma SameDistance(n: nat, a: nat, x: nat, y: nat)
    requires a < n && x < n && y < n
    ensures Dist(n, a, x) == Dist(n, a, y) <==> x == y
  {
  }

  lemma OrderIsKept(t: Table, t1: Table, acted: set<nat>, anchor: nat, y: nat)
    requires Placed(t) && Placed(t1) && |t1.seats| == |t.seats| && t1.cur == t.cur && ActiveSeats(t1) <= ActiveSeats(t)
    requires anchor < |t.seats| && y < |t.seats| && InOrder(t, acted, anchor) && MovesOn(t1, anchor, y)
    ensures InOrder(t1.(cur := y, complete := false), acted + {t.cur}, anchor)
  {
    hide Dist;
    var t2 := t1.(cur := y, complete := false);
    forall i | i in ActiveSeats(t2)
      ensures i in acted + {t.cur} <==> Dist(|t2.seats|, anchor, i) < Dist(|t2.seats|, anchor, y)
    {
      assert i in ActiveSeats(t1);
      SameDistance(|t.seats|, anchor, i, t.cur);
    }
  }

  lemma NotEverywhereYet(t: Table, t1: Table, acted: set<nat>, y: nat)
    requires QuietBeforeRaise(t, t1, acted) && Passed(t1, t1.(cur := y)) && !(AllMatched(t1) && Returned(t1, y))
    ensures MovesOn(t1, t.lastRaiser.value, y)
  {
    hide NextActiveFrom, FirstActor;
    var n, x, bb := |t.seats|, t.cur, t.lastRaiser.value;
    TurnMoves(n, bb, x, y, ActiveSeats(t1));
    if Dist(n, bb, y) <= Dist(n, bb, x) {
      EverybodyMatched(t, t1, acted);
      if bb in ActiveSeats(t1) { NextFromIs(t1, bb, y); }
    }
  }

  lemma BeforeRaiseGoesOn(t: Table, t1: Table, acted: set<nat>, y: nat)
    requires QuietBeforeRaise(t, t1, acted) && Passed(t1, t1.(cur := y)) && !(AllMatched(t1) && Returned(t1, y))
    ensures Fair(t1.(cur := y, complete := false), acted + {t.cur})
  {
    hide Returned, Dist, MovesOn, InOrder, AllMatched;
    NotEverywhereYet(t, t1, acted, y);
    OrderIsKept(t, t1, acted, t.lastRaiser.value, y);
    var t2 := t1.(cur := y, complete := false);
    assert ActiveSeats(t2) == ActiveSeats(t1);
    assert FairBeforeRaise(t2, acted + {t.cur}, t.lastRaiser.value);
  }

  /** If the turn comes round before a raise, all bets are matched, and nobody but the big blind may be left to act. */
  lemma EverybodyMatched(t: Table, t1: Table, acted: set<nat>)
    requires QuietBeforeRaise(t, t1, acted)
    requires forall z :: z in ActiveSeats(t1) ==>
               Dist(|t.seats|, t.lastRaiser.value, z) <= Dist(|t.seats|, t.lastRaiser.value, t.cur)
    ensures AllMatched(t1)
    ensures t.lastRaiser.value in ActiveSeats(t1) ==> t.lastRaiser.value == t.cur
  {
    forall i: nat | i < |t1.seats| && t1.seats[i].status == Active ensures t1.seats[i].bet == t1.currentBet {
      assert i in ActiveSeats(t1);
    }
  }

  lemma ActiveMeans(t: Table)
    ensures forall z: nat :: z in ActiveSeats(t) <==> z < |t.seats| && t.seats[z].status == Active
  {
  }

  lemma NextFromIs(t: Table, from: nat, y: nat)
    requires Placed(t) && from < |t.seats| && y in ActiveSeats(t) && |ActiveSeats(t)| >= 2
    requires forall z :: z in ActiveSeats(t) ==> Dist(|t.seats|, from, y) <= Dist(|t.seats|, from, z)
    ensures NextActiveFrom(t, from) == Some(y)
  {
    hide ActiveSeats;
    SomebodyElse(ActiveSeats(t), from);
    var z :| z in ActiveSeats(t) && z != from;
    ActiveMeans(t);
    assert Dist(|t.seats|, from, z) < |t.seats|;
    assert y in ActiveSeats(t);
  }

  /** Before a raise the round cannot close while the big blind still waits for the option. */
  lemma BigBlindActs(t: Table, t1: Table, acted: set<nat>, y: nat)
    requires QuietBeforeRaise(t, t1, acted)
    requires Passed(t1, t1.(cur := y)) && AllMatched(t1) && Returned(t1, y)
    requires t.lastRaiser.value in ActiveSeats(t1)
    ensures t.lastRaiser.value == t.cur
  {
    if t.lastRaiser.value != t.cur {
      TurnMoves(|t.seats|, t.lastRaiser.value, t.cur, y, ActiveSeats(t1));
    }
  }

  ghost predicate QuietBeforeBet(t: Table, t1: Table, acted: set<nat>) {
    AfterAction(t, t1, acted) && t1.currentBet == t.currentBet && t.lastRaiser.None? && t1.lastRaiser.None?
  }

  lemma BeforeBetIsFair(t: Table, t1: Table, acted: set<nat>)
    requires QuietBeforeBet(t, t1, acted)
    ensures FairOutcome(CheckComplete(Advance(t1)), acted + {t.cur})
       <==> !(t1.seats[t.cur].status != Active && FirstActor(t) == Some(t.cur))
  {
    hide RoundCloses, Advance, FirstActor, Fair, SeatsSound;
    var t2 := Advance(t1);
    TurnPasses(t1);
    CloseTest(t1, t2);
    assert AllMatched(t1) by { UnbetIsMatched(t, t1, acted); }
    if t1.seats[t.cur].status != Active && FirstActor(t) == Some(t.cur) {
      OpenerFoldSkips(t, t1, acted, t2.cur);
    } else {
      BeforeBetTurn(t, t1, acted, t2.cur);
    }
  }

  lemma UnbetIsMatched(t: Table, t1: Table, acted: set<nat>)
    requires QuietBeforeBet(t, t1, acted)
    ensures AllMatched(t1)
  {
    forall i: nat | i < |t1.seats| && t1.seats[i].status == Active ensures t1.seats[i].bet == t1.currentBet {
      assert i in ActiveSeats(t1);
    }
  }

  /** The opener folds: the next player counts as the opener, the round closes, and that player never acted. */
  lemma OpenerFoldSkips(t: Table, t1: Table, acted: set<nat>, y: nat)
    requires QuietBeforeBet(t, t1, acted) && Passed(t1, t1.(cur := y))
    requires t1.seats[t.cur].status != Active && FirstActor(t) == Some(t.cur)
    ensures FirstActor(t1) == Some(y) && y in ActiveSeats(t1) && y !in acted + {t.cur}
  {
    hide FirstActor, Scan;
    FirstActorIsNearest(t);
    FirstActorIsNearest(t1);
    TurnMoves(|t.seats|, t.dealer, t.cur, y, ActiveSeats(t1));
    SameDistance(|t.seats|, t.dealer, y, FirstActor(t1).value);
  }

  lemma ComesRound(t: Table, t1: Table, acted: set<nat>, y: nat)
    requires QuietBeforeBet(t, t1, acted) && Passed(t1, t1.(cur := y))
    requires t1.seats[t.cur].status == Active || FirstActor(t) != Some(t.cur)
    ensures FirstActor(t1) == Some(y) ==>
              forall z :: z in ActiveSeats(t1) ==> Dist(|t.seats|, t.dealer, z) <= Dist(|t.seats|, t.dealer, t.cur)
    ensures FirstActor(t1) != Some(y) ==> MovesOn(t1, t.dealer, y)
  {
    hide FirstActor, Scan;
    FirstActorIsNearest(t);
    FirstActorIsNearest(t1);
    TurnMoves(|t.seats|, t.dealer, t.cur, y, ActiveSeats(t1));
    SameDistance(|t.seats|, t.dealer, y, FirstActor(t1).value);
    assert FirstActor(t).value in ActiveSeats(t1);
    SameDistance(|t.seats|, t.dealer, FirstActor(t).value, FirstActor(t1).value);
  }

  lemma BeforeBetTurn(t: Table, t1: Table, acted: set<nat>, y: nat)
    requires QuietBeforeBet(t, t1, acted) && Passed(t1, t1.(cur := y))
    requires t1.seats[t.cur].status == Active || FirstActor(t) != Some(t.cur)
    ensures FirstActor(t1) == Some(y) ==> EverybodyActed(t1, acted + {t.cur})
    ensures FirstActor(t1) != Some(y) ==> Fair(t1.(cur := y, complete := false), acted + {t.cur})
  {
    hide FirstActor, Dist, MovesOn, Returned;
    ComesRound(t, t1, acted, y);
    UnbetIsMatched(t, t1, acted);
    if FirstActor(t1) == Some(y) {
      forall i | i in ActiveSeats(t1) ensures i in acted + {t.cur} {
        SameDistance(|t.seats|, t.dealer, i, t.cur);
      }
    } else {
      OrderIsKept(t, t1, acted, t.dealer, y);
      var t2 := t1.(cur := y, complete := false);
      assert ActiveSeats(t2) == ActiveSeats(t1);
      assert FairBeforeBet(t2, acted + {t.cur});
    }
  }

  // ---------------------------------------------------------------- raises by nothing, and by less

  lemma ActedMeansMatched(t: Table, acted: set<nat>)
    requires Fair(t, acted)
    ensures forall i :: i in ActiveSeats(t) && i in acted ==> t.seats[i].bet == t.currentBet
  {
  }

  /** Who waits can be read off the table. */
  lemma WaitingOnTable(t: Table, acted: set<nat>)
    requires Fair(t, acted) && t.cur in ActiveSeats(t)
    ensures SomebodyWaits(t) <==>
              exists i :: i in ActiveSeats(t) && i != t.cur && i !in acted && t.seats[i].bet == t.currentBet
  {
    hide Dist;
    var n := |t.seats|;
    if t.lastRaiser.None? {
      forall i | i in ActiveSeats(t) && i != t.cur
        ensures i !in acted <==> Dist(n, t.dealer, i) > Dist(n, t.dealer, t.cur)
      {
        SameDistance(n, t.dealer, i, t.cur);
      }
      if i :| i in ActiveSeats(t) && Dist(n, t.dealer, i) > Dist(n, t.dealer, t.cur) {
        assert i != t.cur && i !in acted && t.seats[i].bet == t.currentBet;
      }
    } else if !t.raised && t.lastRaiser.value in ActiveSeats(t) {
      FarthestFromItself(n, t.lastRaiser.value, t.cur);
      assert t.lastRaiser.value !in acted;
    }
  }

  lemma FarthestFromItself(n: nat, a: nat, x: nat)
    requires a < n && x < n
    ensures Dist(n, a, x) <= Dist(n, a, a)
  {
  }

  /** Between the action and the next turn, after a player who still owes chips has lowered the bet to match. */
  ghost predicate Lowered(t: Table, t1: Table, acted: set<nat>) {
    && Fair(t, acted) && t.cur in ActiveSeats(t) && !t.complete && t.seats[t.cur].bet < t.currentBet
    && Placed(t1) && SeatsSound(t1.seats) && |t1.seats| == |t.seats| && t1.cur == t.cur && !t1.complete
    && (forall i :: 0 <= i < |t.seats| && i != t.cur ==> t1.seats[i] == t.seats[i])
    && t1.currentBet < t.currentBet && t1.lastRaiser.Some? && t1.raised
    && t1.seats[t.cur].bet == t1.currentBet
    && ActiveSeats(t1) <= ActiveSeats(t) <= ActiveSeats(t1) + {t.cur} && |ActiveSeats(t1)| >= 2
  }

  lemma UndercutIsUnfair(t: Table, t1: Table, acted: set<nat>, y: nat)
    requires Lowered(t, t1, acted) && Passed(t1, t1.(cur := y)) && Undercuts(t, t1.currentBet)
    ensures !Fair(t1.(cur := y), acted + {t.cur})
    ensures AllMatched(t1) ==> !EverybodyActed(t1, acted + {t.cur})
  {
    hide SeatsSound, Dist;
    var i :| i in ActiveSeats(t) && i != t.cur && t.seats[i].bet >= t1.currentBet;
    var t2 := t1.(cur := y);
    ActedMeansMatched(t, acted);
    assert ActiveSeats(t2) == ActiveSeats(t1);
    assert i in ActiveSeats(t2) && t2.seats[i] == t.seats[i];
  }

  lemma NoUndercutIsFair(t: Table, t1: Table, acted: set<nat>, y: nat)
    requires Lowered(t, t1, acted) && Passed(t1, t1.(cur := y)) && !Undercuts(t, t1.currentBet)
    ensures Fair(t1.(cur := y), acted + {t.cur}) && !AllMatched(t1)
  {
    hide SeatsSound, Dist;
    var t2 := t1.(cur := y);
    ActedMeansMatched(t, acted);
    assert ActiveSeats(t2) == ActiveSeats(t1);
    SomebodyElse(ActiveSeats(t1), t.cur);
    var i :| i in ActiveSeats(t1) && i != t.cur;
    assert t1.seats[i] == t.seats[i];
    assert FairAfterRaise(t2, acted + {t.cur});
  }

  /** A raise by less than nothing of a player who still owes chips keeps the order exactly if it undercuts nobody. */
  lemma LoweringIsFair(t: Table, t1: Table, acted: set<nat>)
    requires Lowered(t, t1, acted)
    ensures FairOutcome(CheckComplete(Advance(t1)), acted + {t.cur}) <==> !Undercuts(t, t1.currentBet)
  {
    hide RoundCloses, Advance, SeatsSound, Dist, Fair, Undercuts, AllMatched;
    var t2 := Advance(t1);
    TurnPasses(t1);
    CloseTest(t1, t2);
    if Undercuts(t, t1.currentBet) {
      UndercutIsUnfair(t, t1, acted, t2.cur);
    } else {
      NoUndercutIsFair(t, t1, acted, t2.cur);
    }
  }

  /** What a raise by a negative amount does if the raiser owes chips. */
  lemma LoweringEffect(t: Table, amount: int)
    requires Placed(t) && SeatsSound(t.seats) && Accepts(t, t.cur, Raise, amount) && amount < 0
    requires t.seats[t.cur].bet < t.currentBet
    ensures var t1 := TakeAction(t, Raise, amount);
            && SeatsSound(t1.seats) && t1.complete == t.complete && t1.lastRaiser == Some(t.cur) && t1.raised
            && t1.currentBet == RaisedBet(t, amount) < t.currentBet && t1.seats[t.cur].bet == t1.currentBet
            && ActiveSeats(t1) <= ActiveSeats(t) <= ActiveSeats(t1) + {t.cur}
  {
    ActingSeatMoves(t, Raise, amount);
    BetMoves(t.seats[t.cur], t.currentBet - t.seats[t.cur].bet + amount);
  }

  /** A negative raise of a player who owes nothing is a raise by nothing. */
  lemma RaiseByNothing(t: Table, amount: int)
    requires Placed(t) && t.seats[t.cur].bet == t.currentBet && amount <= 0
    ensures TakeAction(t, Raise, amount) == TakeAction(t, Raise, 0) && RaisedBet(t, amount) == t.currentBet
  {
  }

  /** Actions that do not lower the bet to match. */
  lemma SensibleStepIsFair(t: Table, acted: set<nat>, action: Action, amount: int)
    requires Fair(t, acted) && !t.complete && Accepts(t, t.cur, action, amount) && Sensible(Decision(action, amount))
    requires |ActiveSeats(Step(t, t.cur, action, amount))| >= 2
    ensures var t' := Step(t, t.cur, action, amount);
            FairOutcome(t', ActedAfter(t, acted, t'))
            <==> !OpenerFolds(t, action) && !SkippingRaise(t, action, amount)
  {
    var t1 := TakeAction(t, action, amount);
    var t' := Step(t, t.cur, action, amount);
    ActionEffect(t, action, amount);
    assert ActiveSeats(t') == ActiveSeats(t1) && t'.currentBet == t1.currentBet;
    assert AfterAction(t, t1, acted);
    WaitingOnTable(t, acted);
    if t1.currentBet > t.currentBet {
      StrictRaiseIsFair(t, t1, acted);
    } else if action == Raise || (t.lastRaiser.Some? && t.raised) {
      LaterActionIsFair(t, t1, acted);
    } else if t.lastRaiser.Some? {
      BeforeRaiseIsFair(t, t1, acted);
    } else {
      BeforeBetIsFair(t, t1, acted);
    }
  }

  /**
   * One action, by any player and of any amount, in a round that is in order. As long as two players can still act,
   * the round stays in order or closes with nobody skipped, unless the opener of a round without bets folds or a raise
   * passes somebody over: then, and only then, somebody is skipped or left out of order.
   */
  lemma StepIsFair(t: Table, acted: set<nat>, action: Action, amount: int)
    requires Fair(t, acted) && !t.complete && Accepts(t, t.cur, action, amount)
    requires |ActiveSeats(Step(t, t.cur, action, amount))| >= 2
    ensures var t' := Step(t, t.cur, action, amount);
            FairOutcome(t', ActedAfter(t, acted, t'))
            <==> !OpenerFolds(t, action) && !SkippingRaise(t, action, amount)
  {
    hide Fair, TakeAction, RoundCloses, SomebodyWaits, Undercuts, FirstActor, Scan;
    if action != Raise || amount >= 0 {
      SensibleStepIsFair(t, acted, action, amount);
    } else {
      FairMeans(t, acted);
      if t.seats[t.cur].bet == t.currentBet {
        RaiseByNothing(t, amount);
        assert Accepts(t, t.cur, Raise, 0);
        SensibleStepIsFair(t, acted, Raise, 0);
      } else {
        LoweringEffect(t, amount);
        var t1 := TakeAction(t, Raise, amount);
        assert ActiveSeats(Step(t, t.cur, action, amount)) == ActiveSeats(t1);
        OthersStay(t, amount);
        LoweringIsFair(t, t1, acted);
      }
    }
  }

  lemma FairMeans(t: Table, acted: set<nat>)
    requires Fair(t, acted)
    ensures Placed(t) && SeatsSound(t.seats) && forall i :: i in ActiveSeats(t) ==> t.seats[i].bet <= t.currentBet
  {
  }

  lemma OthersStay(t: Table, amount: int)
    requires Placed(t)
    ensures forall i :: 0 <= i < |t.seats| && i != t.cur ==> TakeAction(t, Raise, amount).seats[i] == t.seats[i]
  {
  }

  // ---------------------------------------------------------------- exactly when a round closes

  lemma RemainingIsSum(seats: seq<Seat>)
    ensures |Remaining(seats)| == |SeatsIn(seats, {Active})| + |SeatsIn(seats, {AllIn})|
  {
    var a, b := Holding(seats, {Active}), Holding(seats, {AllIn});
    assert Remaining(seats) == a + b && a !! b;
  }

  /**
   * After an action that leaves at most one player able to act, the round is complete exactly if at most one player is
   * left in the hand, or that one player owes nothing.
   */
  lemma FewActiveClose(t: Table, action: Action, amount: int)
    requires Placed(t) && !t.complete && Accepts(t, t.cur, action, amount)
    requires |ActiveSeats(Step(t, t.cur, action, amount))| <= 1
    ensures var u := Step(t, t.cur, action, amount);
            u.complete <==> |Remaining(u.seats)| <= 1
                            || forall i :: i in ActiveSeats(u) ==> u.seats[i].bet >= u.currentBet
  {
    hide Scan, SeatsIn, TakeAction, Accepts, FirstActor, NextActiveFrom;
    var t1 := TakeAction(t, action, amount);
    assert !t1.complete by { StillOpen(t, action, amount); }
    var t2 := Advance(t1);
    assert ActiveSeats(Step(t, t.cur, action, amount)) == ActiveSeats(t1) == ActiveSeats(t2);
    RemainingIsSum(t2.seats);
    CountActive(t2);
    if ActiveSeats(t1) != {} {
      TurnPasses(t1);
      OnlySeat(ActiveSeats(t2), SeatsIn(t2.seats, {Active}));
    }
  }

  lemma StillOpen(t: Table, action: Action, amount: int)
    requires Placed(t)
    ensures TakeAction(t, action, amount).complete == t.complete
  {
  }

  lemma OnlySeat(s: set<nat>, list: seq<nat>)
    requires |s| <= 1 && s != {} && forall i :: i in list <==> i in s
    ensures list != [] && s == {list[0]}
  {
    var x :| x in s;
    assert s == {x} by { SubsetSize({x}, s); forall y | y in s ensures y == x { if y != x { SubsetSize({x, y}, s); } } }
    assert list[0] in list;
  }

  /**
   * After an action in a round in order that leaves two or more players able to act and passes nobody over, the round
   * is complete exactly if each of them has matched the bet and acted since the last raise.
   */
  lemma RoundEndsWhenServed(t: Table, acted: set<nat>, action: Action, amount: int)
    requires Fair(t, acted) && !t.complete && Accepts(t, t.cur, action, amount)
    requires |ActiveSeats(Step(t, t.cur, action, amount))| >= 2
    requires !OpenerFolds(t, action) && !SkippingRaise(t, action, amount)
    ensures var u := Step(t, t.cur, action, amount); u.complete <==> EverybodyActed(u, ActedAfter(t, acted, u))
  {
    hide Fair, FirstActor, RoundCloses, TakeAction, SomebodyWaits, Undercuts, Scan, EverybodyActed, ActiveSeats;
    FairMeans(t, acted);
    var u := Step(t, t.cur, action, amount);
    StepIsFair(t, acted, action, amount);
    if !u.complete {
      var t1 := TakeAction(t, action, amount);
      assert ActiveSeats(u) == ActiveSeats(t1) by { SameActive(t1, u); }
      TurnPasses(t1);
      assert u == Advance(t1);
      SomebodyIsLeft(u, ActedAfter(t, acted, u));
    }
  }

  lemma SameActive(t: Table, u: Table)
    requires u.seats == t.seats
    ensures ActiveSeats(u) == ActiveSeats(t)
  {
  }

  /** In an open round in order somebody has not acted or not matched the bet. */
  lemma SomebodyIsLeft(u: Table, acted: set<nat>)
    requires Fair(u, acted) && u.cur in ActiveSeats(u) && |ActiveSeats(u)| >= 2 && !RoundCloses(u)
    ensures !EverybodyActed(u, acted)
  {
    hide SeatsSound, FirstActor, NextActiveFrom, RoundCloses;
    CloseTest(u, u);
    if u.lastRaiser.Some? && u.raised && EverybodyActed(u, acted) { MatchedByAll(u, acted); }
  }

  lemma MatchedByAll(u: Table, acted: set<nat>)
    requires EverybodyActed(u, acted)
    ensures AllMatched(u)
  {
    forall i: nat | i < |u.seats| && u.seats[i].status == Active ensures u.seats[i].bet == u.currentBet {
      assert i in ActiveSeats(u);
    }
  }
}
