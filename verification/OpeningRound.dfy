/** The first betting round of a hand, from `start_new_hand` on: exactly when a player can be skipped in it. */
module OpeningRound {
  import opened Prelude
  import opened Cards
  import opened TableModel
  import opened Bookkeeping
  import opened Closing
  import opened Fairness
  import opened Rounds

  /** The run closes with two players able to act, one of whom has not matched the bet or not acted on it. */
  ghost predicate Skips(h: Table, agents: nat -> Decision, k: nat)
    requires Placed(h)
  {
    var (u, acted) := Play(h, {}, agents, 0, k);
    u.complete && |ActiveSeats(u)| >= 2 && !EverybodyActed(u, acted)
  }

  /** Some players, raising by positive amounts only, skip one of them. */
  ghost predicate CanSkip(h: Table)
    requires Placed(h)
  {
    exists agents: nat -> Decision, k: nat :: PositiveRaises(agents) && Skips(h, agents, k)
  }

  /**
   * The big blind cannot post more than the small blind, and both the small blind and a third player can bet more.
   */
  ghost predicate ShortBigBlind(t: Table, small: int)
    requires Placed(t) && |NonBusted(ResetSeats(t.seats))| >= 2
  {
    var (sb, bb) := HandBlinds(t);
    && t.seats[bb].chips <= small < t.seats[sb].chips
    && exists p: nat :: p < |t.seats| && p != sb && p != bb && t.seats[p].chips > small
  }

  // ---------------------------------------------------------------- nobody can be skipped

  /**
   * Nobody but seat `sb` can bet more than the small blind, and who has matched the bet has acted on it. As long as
   * that seat is in the round, no other can match it.
   */
  ghost predicate SmallStacks(t: Table, acted: set<nat>, sb: nat, small: int) {
    && Placed(t) && SeatsSound(t.seats) && sb < |t.seats| && t.seats[sb].bet >= small
    && forall i :: i in ActiveSeats(t) && i != sb ==>
         && t.seats[i].bet + t.seats[i].chips <= small && t.seats[i].bet <= t.currentBet
         && (t.seats[i].bet == t.currentBet ==> i in acted)
  }

  /** An action with a positive raise does not lower the bet to match, and moves chips into the own bet only. */
  lemma ActorBet(t: Table, d: Decision)
    requires Placed(t) && SeatsSound(t.seats) && Accepts(t, t.cur, d.action, d.amount)
    requires d.action == Raise ==> d.amount > 0
    ensures var t1, s, s' := TakeAction(t, d.action, d.amount), t.seats[t.cur], ActingSeat(t, d.action, d.amount);
            && SeatsSound(t1.seats) && s'.bet + s'.chips == s.bet + s.chips && s'.bet >= s.bet
            && t1.currentBet >= t.currentBet && t1.complete == t.complete
            && (s.bet <= t.currentBet ==> s'.bet <= t1.currentBet)
            && (s'.status == Active ==> s.status == Active)
  {
    var s := t.seats[t.cur];
    ActingSeatMoves(t, d.action, d.amount);
    match d.action {
      case Call => BetMoves(s, t.currentBet - s.bet);
      case Raise => BetMoves(s, t.currentBet - s.bet + d.amount);
      case GoAllIn => BetMoves(s, s.chips);
      case _ =>
    }
  }

  lemma ActionKeepsSmallStacks(t: Table, acted: set<nat>, sb: nat, small: int, d: Decision)
    requires SmallStacks(t, acted, sb, small) && Accepts(t, t.cur, d.action, d.amount)
    requires d.action == Raise ==> d.amount > 0
    ensures var t1 := TakeAction(t, d.action, d.amount); SmallStacks(t1, ActedAfter(t, acted, t1), sb, small)
  {
    hide ActingSeat, Accepts, SeatsSound;
    ActorBet(t, d);
    var t1 := TakeAction(t, d.action, d.amount);
    forall i | i in ActiveSeats(t1)
      ensures i in ActiveSeats(t) && (i != t.cur ==> t1.seats[i] == t.seats[i])
    {
    }
  }

  /** A round with two players able to act is complete only if all of them have matched the bet. */
  predicate ClosedMatched(t: Table) {
    t.complete && |ActiveSeats(t)| >= 2 ==> AllMatched(t)
  }

  lemma StepClosesMatched(t: Table, d: Decision)
    requires Placed(t) && !t.complete && Accepts(t, t.cur, d.action, d.amount)
    ensures ClosedMatched(Step(t, t.cur, d.action, d.amount))
  {
    hide RoundCloses, Scan, AllMatched, ActingSeat, Returned;
    var t1 := TakeAction(t, d.action, d.amount);
    var u := Step(t, t.cur, d.action, d.amount);
    assert ActiveSeats(u) == ActiveSeats(t1);
    if u.complete && |ActiveSeats(u)| >= 2 {
      TurnPasses(t1);
      CloseTest(t1, Advance(t1));
      SameMatched(t1, u);
    }
  }

  lemma SameMatched(t: Table, u: Table)
    requires u.seats == t.seats && u.currentBet == t.currentBet && AllMatched(t)
    ensures AllMatched(u)
  {
  }

  lemma TurnKeepsSmallStacks(t: Table, acted: set<nat>, sb: nat, small: int, d: Decision)
    requires SmallStacks(t, acted, sb, small) && !t.complete && (d.action == Raise ==> d.amount > 0)
    ensures var u := DriverStep(t, d);
            SmallStacks(u, if t.seats[t.cur].status == Active then ActedAfter(t, acted, u) else acted, sb, small)
            && ClosedMatched(u)
  {
    hide RoundCloses, Scan, TakeAction, Accepts, SeatsSound, AllMatched;
    if t.seats[t.cur].status == Active {
      FoldIsAccepted(t);
      var e := Effective(t, d);
      var t1, u := TakeAction(t, e.action, e.amount), DriverStep(t, d);
      ActionKeepsSmallStacks(t, acted, sb, small, e);
      StepClosesMatched(t, e);
      assert ActiveSeats(u) == ActiveSeats(t1) && u.currentBet == t1.currentBet;
    } else {
      assert ActiveSeats(Advance(t)) == ActiveSeats(t);
      SkippedTurn(t);
    }
  }

  lemma SkippedTurn(t: Table)
    requires Placed(t) && !t.complete
    ensures ClosedMatched(Advance(t))
  {
    if ActiveSeats(t) != {} { TurnPasses(t); }
    assert ActiveSeats(Advance(t)) == ActiveSeats(t);
  }

  lemma {:induction false} RunKeepsSmallStacks(t: Table, acted: set<nat>, sb: nat, small: int,
                                               agents: nat -> Decision, i: nat, k: nat)
    requires SmallStacks(t, acted, sb, small) && ClosedMatched(t) && PositiveRaises(agents)
    ensures var (u, acted') := Play(t, acted, agents, i, k); SmallStacks(u, acted', sb, small) && ClosedMatched(u)
    decreases k
  {
    hide DriverStep, SmallStacks, ClosedMatched;
    assert Placed(t) by { SmallStacksMeans(t, acted, sb, small); }
    if k > 0 && !t.complete {
      var t' := DriverStep(t, agents(i));
      TurnKeepsSmallStacks(t, acted, sb, small, agents(i));
      RunKeepsSmallStacks(t', if t.seats[t.cur].status == Active then ActedAfter(t, acted, t') else acted, sb, small,
                          agents, i + 1, k - 1);
    }
  }

  lemma SmallStacksMeans(t: Table, acted: set<nat>, sb: nat, small: int)
    requires SmallStacks(t, acted, sb, small)
    ensures Placed(t)
  {
  }

  lemma SmallBlindStandsAlone(t: Table, acted: set<nat>, sb: nat, small: int)
    requires SmallStacks(t, acted, sb, small) && AllMatched(t) && sb in ActiveSeats(t)
    ensures ActiveSeats(t) <= {sb}
  {
    forall i | i in ActiveSeats(t) ensures i == sb {
      assert t.seats[i].bet == t.currentBet == t.seats[sb].bet && t.seats[i].chips > 0;
    }
  }

  /** With small stacks all around, a round closes with two players able to act only after the small blind has left. */
  lemma SmallStacksSkipNobody(t: Table, acted: set<nat>, sb: nat, small: int)
    requires SmallStacks(t, acted, sb, small) && |ActiveSeats(t)| >= 2 && AllMatched(t)
    ensures EverybodyActed(t, acted)
  {
    hide AllMatched;
    if sb in ActiveSeats(t) {
      SmallBlindStandsAlone(t, acted, sb, small);
      SubsetSize(ActiveSeats(t), {sb});
    } else {
      MatchedMeans(t);
    }
  }

  lemma MatchedMeans(t: Table)
    requires AllMatched(t)
    ensures forall i :: i in ActiveSeats(t) ==> t.seats[i].bet == t.currentBet
  {
  }

  lemma OpensWithSmallStacks(t: Table, h: Table, sb: nat, bb: nat, small: int, big: int)
    requires Opening(t, h, sb, bb, small, big) && 0 < small < big && NoDebts(t.seats)
             && Placed(h) && SeatsSound(h.seats)
    requires t.seats[bb].chips <= small < t.seats[sb].chips
    requires forall p: nat :: p < |t.seats| && p != sb && p != bb ==> t.seats[p].chips <= small
    ensures SmallStacks(h, {}, sb, small)
  {
    forall i | i in ActiveSeats(h) && i != sb
      ensures i != bb && h.seats[i].bet == 0 < h.currentBet && h.seats[i].chips <= small
    {
      assert OpeningSeat(t.seats[i], h.seats[i], i == sb || i == bb);
    }
  }

  // ---------------------------------------------------------------- somebody can be skipped

  /**
   * The small blind waits with its blind in, the last to act. Of the others only `p` and those after the turn are left;
   * `p` joins the small blind at its bet, or has done so already.
   */
  ghost predicate Overtaking(t: Table, acted: set<nat>, sb: nat, bb: nat, p: nat, small: int, joined: bool) {
    && Placed(t) && SeatsSound(t.seats) && !t.complete && bb < |t.seats|
    && t.lastRaiser.Some? && (t.raised || t.lastRaiser.value !in ActiveSeats(t))
    && sb in ActiveSeats(t) && p in ActiveSeats(t) && sb != p
    && t.seats[sb].bet == small && sb !in acted && 0 < t.currentBet <= small
    && (forall z :: z in ActiveSeats(t) && z != sb ==> Dist(|t.seats|, bb, z) < Dist(|t.seats|, bb, sb))
    && (forall z :: z in ActiveSeats(t) && z != sb && z != p ==> t.seats[z].bet == 0)
    && if joined then t.seats[p].bet == t.currentBet == small
       else t.seats[p].bet == 0 && t.seats[p].chips > small
  }

  /** The turn, seen from the big blind, is where it should be. */
  ghost predicate AtTurn(t: Table, bb: nat, sb: nat, p: nat, joined: bool)
    requires Placed(t) && bb < |t.seats|
  {
    && t.cur in ActiveSeats(t) && t.cur != sb
    && (forall z :: z in ActiveSeats(t) && z != p ==> Dist(|t.seats|, bb, z) >= Dist(|t.seats|, bb, t.cur))
    && if joined then t.cur != p && p < |t.seats| && Dist(|t.seats|, bb, p) < Dist(|t.seats|, bb, t.cur)
       else p < |t.seats| && Dist(|t.seats|, bb, p) >= Dist(|t.seats|, bb, t.cur)
  }

  /** The same between an action and the next turn: everybody but `p` up to here has left. */
  ghost predicate PastTurn(t: Table, bb: nat, sb: nat, p: nat, joined: bool)
    requires Placed(t) && bb < |t.seats|
  {
    && sb < |t.seats| && p < |t.seats| && Dist(|t.seats|, bb, t.cur) < Dist(|t.seats|, bb, sb)
    && (forall z :: z in ActiveSeats(t) && z != p ==> Dist(|t.seats|, bb, z) > Dist(|t.seats|, bb, t.cur))
    && (joined <==> Dist(|t.seats|, bb, p) <= Dist(|t.seats|, bb, t.cur))
  }

  /** Somebody besides the small blind and `p` is left. */
  ghost predicate OthersLeft(t: Table, sb: nat, p: nat) {
    exists z :: z in ActiveSeats(t) && z != sb && z != p
  }

  lemma TurnReaches(t1: Table, acted: set<nat>, sb: nat, bb: nat, p: nat, small: int, joined: bool, y: nat)
    requires Overtaking(t1, acted, sb, bb, p, small, joined) && PastTurn(t1, bb, sb, p, joined)
             && Passed(t1, t1.(cur := y))
    requires !joined || OthersLeft(t1, sb, p)
    ensures AtTurn(t1.(cur := y), bb, sb, p, joined) && !AllMatched(t1)
  {
    hide Dist, SeatsSound;
    var n := |t1.seats|;
    var z :| z in ActiveSeats(t1) && z != sb && Dist(n, bb, z) > Dist(n, bb, t1.cur) && t1.seats[z].bet == 0;
    TurnMoves(n, bb, t1.cur, y, ActiveSeats(t1));
    assert ActiveSeats(t1.(cur := y)) == ActiveSeats(t1);
  }

  lemma NobodyLeft(t1: Table, acted: set<nat>, sb: nat, bb: nat, p: nat, small: int)
    requires Overtaking(t1, acted, sb, bb, p, small, true) && !OthersLeft(t1, sb, p)
    ensures ActiveSeats(t1) == {sb, p} && AllMatched(t1)
  {
    hide SeatsSound, Dist;
    assert ActiveSeats(t1) == {sb, p};
    forall i: nat | i < |t1.seats| && t1.seats[i].status == Active ensures t1.seats[i].bet == t1.currentBet {
      assert i in ActiveSeats(t1);
    }
  }

  /** The turn moves on: the overtaking goes on, or nobody is left to act and the round closes over the small blind. */
  lemma TurnOvertakes(t1: Table, acted: set<nat>, sb: nat, bb: nat, p: nat, small: int, joined: bool)
    requires Overtaking(t1, acted, sb, bb, p, small, joined) && PastTurn(t1, bb, sb, p, joined)
    ensures var u := CheckComplete(Advance(t1));
            if joined && !OthersLeft(t1, sb, p) then u.complete && ActiveSeats(u) == {sb, p}
            else Overtaking(u, acted, sb, bb, p, small, joined) && AtTurn(u, bb, sb, p, joined)
  {
    hide RoundCloses, Scan, AllMatched, Dist, PastTurn, AtTurn, OthersLeft, SeatsSound;
    SubsetSize({sb, p}, ActiveSeats(t1));
    TurnPasses(t1);
    var t2 := Advance(t1);
    CloseTest(t1, t2);
    assert ActiveSeats(t2) == ActiveSeats(t1);
    if joined && !OthersLeft(t1, sb, p) {
      NobodyLeft(t1, acted, sb, bb, p, small);
    } else {
      TurnReaches(t1, acted, sb, bb, p, small, joined, t2.cur);
    }
  }

  /** A third player other than `p` folds. */
  lemma FoldOvertakes(t: Table, acted: set<nat>, sb: nat, bb: nat, p: nat, small: int, joined: bool)
    requires Overtaking(t, acted, sb, bb, p, small, joined) && AtTurn(t, bb, sb, p, joined) && t.cur != p
    ensures var t1 := TakeAction(t, Fold, 0);
            && Overtaking(t1, acted + {t.cur}, sb, bb, p, small, joined) && PastTurn(t1, bb, sb, p, joined)
            && ActiveSeats(t1) == ActiveSeats(t) - {t.cur} && t1.currentBet == t.currentBet
  {
    hide Dist;
    var t1 := TakeAction(t, Fold, 0);
    assert ActiveSeats(t1) == ActiveSeats(t) - {t.cur};
    forall z | z in ActiveSeats(t1) && z != p ensures Dist(|t.seats|, bb, z) > Dist(|t.seats|, bb, t.cur) {
      SameDistance(|t.seats|, bb, z, t.cur);
    }
    SameDistance(|t.seats|, bb, p, t.cur);
  }

  /** How a player without a bet joins the small blind: by a call, or by a raise if the bet to match is lower. */
  function Joining(currentBet: int, small: int): Decision {
    if currentBet < small then Decision(Raise, small - currentBet) else Decision(Call, 0)
  }

  lemma JoinOvertakes(t: Table, acted: set<nat>, sb: nat, bb: nat, p: nat, small: int)
    requires Overtaking(t, acted, sb, bb, p, small, false) && AtTurn(t, bb, sb, p, false) && t.cur == p
    ensures var d := Joining(t.currentBet, small); var t1 := TakeAction(t, d.action, d.amount);
            && Accepts(t, p, d.action, d.amount)
            && Overtaking(t1, ActedAfter(t, acted, t1), sb, bb, p, small, true) && PastTurn(t1, bb, sb, p, true)
            && ActiveSeats(t1) == ActiveSeats(t)
  {
    hide Dist;
    var d := Joining(t.currentBet, small);
    var t1 := TakeAction(t, d.action, d.amount);
    assert t1.seats[p].bet == small == t1.currentBet && t1.seats[p].status == Active && t1.seats[p].chips > 0;
    assert ActiveSeats(t1) == ActiveSeats(t);
    assert SeatsSound(t1.seats) by { ActingSeatMoves(t, d.action, d.amount); }
    forall z | z in ActiveSeats(t1) && z != p ensures Dist(|t.seats|, bb, z) > Dist(|t.seats|, bb, t.cur) {
      SameDistance(|t.seats|, bb, z, t.cur);
    }
  }

  function DecisionAt(t: Table, p: nat, small: int): Decision
    requires Placed(t)
  {
    if t.cur == p then Joining(t.currentBet, small) else Decision(Fold, 0)
  }

  /** One turn of the overtaking. */
  lemma TurnOfOvertaking(t: Table, acted: set<nat>, sb: nat, bb: nat, p: nat, small: int, joined: bool)
    requires Overtaking(t, acted, sb, bb, p, small, joined) && AtTurn(t, bb, sb, p, joined)
    ensures var u, now := DriverStep(t, DecisionAt(t, p, small)), joined || t.cur == p;
            var acted' := ActedAfter(t, acted, u);
            && |u.seats| == |t.seats| && sb !in acted'
            && (if u.complete then now && ActiveSeats(u) == {sb, p}
                else Overtaking(u, acted', sb, bb, p, small, now) && AtTurn(u, bb, sb, p, now))
            && ActiveSeats(u) <= ActiveSeats(t) && (t.cur != p ==> ActiveSeats(u) == ActiveSeats(t) - {t.cur})
            && (t.cur != p ==> u.currentBet == t.currentBet)
  {
    hide RoundCloses, Scan, Dist, AtTurn, PastTurn, OthersLeft, TakeAction, Holding;
    var d := DecisionAt(t, p, small);
    var t1 := TakeAction(t, d.action, d.amount);
    TurnIsActive(t, bb, sb, p, joined);
    FoldIsAccepted(t);
    if t.cur == p {
      NotJoinedAtTurn(t, bb, sb, p, joined);
      JoinOvertakes(t, acted, sb, bb, p, small);
      TurnOvertakes(t1, ActedAfter(t, acted, t1), sb, bb, p, small, true);
    } else {
      FoldOvertakes(t, acted, sb, bb, p, small, joined);
      TurnOvertakes(t1, acted + {t.cur}, sb, bb, p, small, joined);
    }
    assert DriverStep(t, d) == CheckComplete(Advance(t1));
  }

  lemma TurnIsActive(t: Table, bb: nat, sb: nat, p: nat, joined: bool)
    requires Placed(t) && bb < |t.seats| && AtTurn(t, bb, sb, p, joined)
    ensures t.cur in ActiveSeats(t) && t.seats[t.cur].status == Active
  {
  }

  lemma NotJoinedAtTurn(t: Table, bb: nat, sb: nat, p: nat, joined: bool)
    requires Placed(t) && bb < |t.seats| && AtTurn(t, bb, sb, p, joined) && t.cur == p
    ensures !joined
  {
  }

  /** The players who act before `p`. */
  function Before(t: Table, bb: nat, p: nat): set<nat>
    requires bb < |t.seats| && p < |t.seats|
  {
    set z | z in ActiveSeats(t) && Dist(|t.seats|, bb, z) < Dist(|t.seats|, bb, p)
  }

  /** The run: everybody folds but `p`, whose turn is the `m`-th. */
  lemma {:induction false} OvertakingRun(t: Table, acted: set<nat>, agents: nat -> Decision, i: nat, m: nat,
                                         sb: nat, bb: nat, p: nat, small: int, joined: bool) returns (k: nat)
    requires Overtaking(t, acted, sb, bb, p, small, joined) && AtTurn(t, bb, sb, p, joined)
    requires forall j: nat :: j != m ==> agents(j) == Decision(Fold, 0)
    requires joined ==> m < i
    requires !joined ==> p < |t.seats| && m == i + |Before(t, bb, p)| && agents(m) == Joining(t.currentBet, small)
    ensures Placed(t)
    ensures var (u, acted') := Play(t, acted, agents, i, k);
            u.complete && |ActiveSeats(u)| >= 2 && !EverybodyActed(u, acted')
    decreases |ActiveSeats(t)|, !joined
  {
    hide Dist, AtTurn, Overtaking, OthersLeft, DriverStep, Joining, Before, ActiveSeats;
    OvertakingMeans(t, acted, sb, bb, p, small, joined);
    TurnIsActive(t, bb, sb, p, joined);
    TurnOfOvertaking(t, acted, sb, bb, p, small, joined);
    if !joined { CountBefore(t, bb, sb, p); }
    if t.cur == p { NotJoinedAtTurn(t, bb, sb, p, joined); }
    assert agents(i) == DecisionAt(t, p, small);
    var u := DriverStep(t, agents(i));
    var acted' := ActedAfter(t, acted, u);
    if u.complete {
      k := 1;
      assert Play(t, acted, agents, i, 1) == Play(u, acted', agents, i + 1, 0) == (u, acted');
      assert sb in ActiveSeats(u);
    } else {
      if t.cur == p { SubsetSize(ActiveSeats(u), ActiveSeats(t)); } else { FewerActive(t, u, sb, bb, p); }
      k := OvertakingRun(u, acted', agents, i + 1, m, sb, bb, p, small, joined || t.cur == p);
      k := k + 1;
    }
  }

  lemma OvertakingMeans(t: Table, acted: set<nat>, sb: nat, bb: nat, p: nat, small: int, joined: bool)
    requires Overtaking(t, acted, sb, bb, p, small, joined)
    ensures Placed(t) && !t.complete && bb < |t.seats| && p < |t.seats| && sb != p
  {
  }

  /** The turn is at `p` exactly if nobody acts before it. */
  lemma CountBefore(t: Table, bb: nat, sb: nat, p: nat)
    requires Placed(t) && bb < |t.seats| && AtTurn(t, bb, sb, p, false)
    ensures p < |t.seats| && (t.cur == p <==> |Before(t, bb, p)| == 0) && (t.cur != p ==> t.cur in Before(t, bb, p))
  {
    hide Dist;
    SameDistance(|t.seats|, bb, t.cur, p);
    if t.cur == p {
      assert Before(t, bb, p) == {};
    } else {
      assert t.cur in Before(t, bb, p);
    }
  }

  lemma FewerActive(t: Table, u: Table, sb: nat, bb: nat, p: nat)
    requires Placed(t) && bb < |t.seats| == |u.seats| && p < |t.seats| && t.cur in ActiveSeats(t)
    requires ActiveSeats(u) == ActiveSeats(t) - {t.cur}
    ensures |ActiveSeats(u)| < |ActiveSeats(t)|
    ensures t.cur in Before(t, bb, p) ==> |Before(u, bb, p)| == |Before(t, bb, p)| - 1
  {
    hide Dist;
    if t.cur in Before(t, bb, p) { assert Before(u, bb, p) == Before(t, bb, p) - {t.cur}; }
  }

  // ---------------------------------------------------------------- the opening

  /** With three players or more the big blind is the next player after the small blind. */
  lemma BlindsAreNeighbours(players: seq<nat>, dealer: nat, n: nat)
    requires Ascending(players) && Under(players, n) && |players| >= 3 && dealer in players
    ensures var (sb, bb) := BlindSeats(players, dealer);
            sb < n && bb < n && forall k :: 0 <= k < |players| ==> Dist(n, sb, bb) <= Dist(n, sb, players[k])
  {
    hide Dist, IndexOf;
    var m, p := |players|, IndexOf(players, dealer);
    WrapIsModulo(p + 1, m);
    WrapIsModulo(p + 2, m);
    var j := Wrap(p + 1, m);
    WrapIsModulo(j + 1, m);
    forall k | 0 <= k < m ensures Dist(n, players[j], players[(j + 1) % m]) <= Dist(n, players[j], players[k]) {
      NextInListIsNearest(players, n, j, k);
    }
  }

  /** If the big blind is next to the small blind, then the small blind is the last before the big blind. */
  lemma LastBeforeBigBlind(n: nat, sb: nat, bb: nat, z: nat)
    requires sb < n && bb < n && z < n && z != sb && z != bb && Dist(n, sb, bb) <= Dist(n, sb, z)
    ensures Dist(n, bb, z) < Dist(n, bb, sb) < Dist(n, bb, bb)
  {
  }

  /** Before the flop the third players act before the small blind. */
  lemma SmallBlindIsLast(t: Table, players: seq<nat>, z: nat)
    requires Placed(t) && |NonBusted(ResetSeats(t.seats))| >= 2 && players == NonBusted(ResetSeats(t.seats))
    requires z in players && z != HandBlinds(t).0 && z != HandBlinds(t).1
    ensures var n, (sb, bb) := |t.seats|, HandBlinds(t); z < n && Dist(n, bb, z) < Dist(n, bb, sb) < Dist(n, bb, bb)
  {
    hide SeatsIn, IndexOf, Dist, BlindSeats;
    var dealer, n := NextDealer(ResetSeats(t.seats), t.dealer), |t.seats|;
    var (sb, bb) := HandBlinds(t);
    assert Under(players, n) by {
             forall k | 0 <= k < |players| ensures players[k] < n { assert players[k] in players; } }
    BlindedDealer(t, t.deck, 0, 0);
    ThirdPlayer(players, dealer, z);
    BlindsAreNeighbours(players, dealer, n);
    var k :| 0 <= k < |players| && players[k] == z;
    LastBeforeBigBlind(n, sb, bb, z);
  }

  lemma ThirdPlayer(players: seq<nat>, dealer: nat, z: nat)
    requires |players| >= 2 && dealer in players
    requires z in players && z != BlindSeats(players, dealer).0 && z != BlindSeats(players, dealer).1
    ensures |players| >= 3
  {
  }

  /** The opening of a hand with a short big blind is one in which `p` can overtake the small blind. */
  lemma OpensForOvertaking(t: Table, order: seq<Card>, small: int, big: int, p: nat)
    requires Placed(t) && |t.seats| <= 10 && |order| == 52 && NoDebts(t.seats) && 0 < small < big
    requires |NonBusted(ResetSeats(t.seats))| >= 2
    requires t.seats[HandBlinds(t).1].chips <= small < t.seats[HandBlinds(t).0].chips
    requires p < |t.seats| && p != HandBlinds(t).0 && p != HandBlinds(t).1 && t.seats[p].chips > small
    ensures var h, (sb, bb) := StartHand(t, order, small, big), HandBlinds(t);
            Overtaking(h, {}, sb, bb, p, small, false) && AtTurn(h, bb, sb, p, false)
  {
    hide StartHand, HandBlinds, Dist, SeatsIn;
    var h := StartHand(t, order, small, big);
    var (sb, bb) := HandBlinds(t);
    var players := NonBusted(ResetSeats(t.seats));
    StartHandOpening(t, order, small, big);
    StartHandOrder(t, order, small, big);
    assert SeatsSound(h.seats) by { StartHandLedger(t, order, small, big); }
    forall z | z in players && z != sb && z != bb
      ensures z in ActiveSeats(h) && h.seats[z].bet == 0 && h.seats[z].chips == t.seats[z].chips
      ensures Dist(|h.seats|, bb, z) < Dist(|h.seats|, bb, sb) < Dist(|h.seats|, bb, bb)
    {
      assert OpeningSeat(t.seats[z], h.seats[z], z == sb || z == bb);
      SmallBlindIsLast(t, players, z);
    }
    assert OpeningSeat(t.seats[sb], h.seats[sb], true) && OpeningSeat(t.seats[bb], h.seats[bb], true);
    assert p in players;
    forall z | z in ActiveSeats(h) ensures z in players && z != bb {
      assert OpeningSeat(t.seats[z], h.seats[z], z == sb || z == bb);
    }
  }

  /** The failing run: `p` joins the small blind, the other third players fold, and the round closes. */
  lemma ShortBlindSkips(t: Table, order: seq<Card>, small: int, big: int)
    requires Placed(t) && |t.seats| <= 10 && |order| == 52 && NoDebts(t.seats) && 0 < small < big
    requires |NonBusted(ResetSeats(t.seats))| >= 2 && ShortBigBlind(t, small)
    ensures CanSkip(StartHand(t, order, small, big))
  {
    hide StartHand, HandBlinds, Overtaking, AtTurn, Before, Play;
    var h := StartHand(t, order, small, big);
    var (sb, bb) := HandBlinds(t);
    var p: nat :| p < |t.seats| && p != sb && p != bb && t.seats[p].chips > small;
    OpensForOvertaking(t, order, small, big, p);
    var m, d := |Before(h, bb, p)|, Joining(h.currentBet, small);
    var agents: nat -> Decision := j => if j == m then d else Decision(Fold, 0);
    var k := OvertakingRun(h, {}, agents, 0, m, sb, bb, p, small, false);
    assert PositiveRaises(agents) && Skips(h, agents, k);
  }

  /** Otherwise whoever decides, raising by positive amounts only, skips nobody. */
  lemma OtherwiseNobodyIsSkipped(t: Table, order: seq<Card>, small: int, big: int, agents: nat -> Decision, k: nat)
    requires Placed(t) && |t.seats| <= 10 && |order| == 52 && NoDebts(t.seats) && 0 < small < big
    requires |NonBusted(ResetSeats(t.seats))| >= 2 && !ShortBigBlind(t, small) && PositiveRaises(agents)
    ensures !Skips(StartHand(t, order, small, big), agents, k)
  {
    hide StartHand, HandBlinds, Fair, Play, SmallStacks, EverybodyActed, Careful;
    var h := StartHand(t, order, small, big);
    var (sb, bb) := HandBlinds(t);
    HandOpensFairly(t, order, small, big);
    var (u, acted) := Play(h, {}, agents, 0, k);
    if u.complete && |ActiveSeats(u)| >= 2 {
      if Fair(h, {}) {
        PositiveRaisesAreCareful(h, agents, 0, k);
        NobodyIsSkipped(h, agents, 0, k);
      } else {
        StartHandOpening(t, order, small, big);
        assert SeatsSound(h.seats) by { StartHandLedger(t, order, small, big); }
        OpensWithSmallStacks(t, h, sb, bb, small, big);
        RunKeepsSmallStacks(h, {}, sb, small, agents, 0, k);
        SmallStacksSkipNobody(u, acted, sb, small);
      }
    }
  }

  /**
   * In the first betting round of a hand somebody can be skipped, by players who raise by positive amounts only,
   * exactly if the big blind has no more chips than the small blind posts, while both the small blind and a third
   * player have.
   */
  lemma FirstRoundCanSkip(t: Table, order: seq<Card>, small: int, big: int)
    requires Placed(t) && |t.seats| <= 10 && |order| == 52 && NoDebts(t.seats) && 0 < small < big
    requires |NonBusted(ResetSeats(t.seats))| >= 2
    ensures CanSkip(StartHand(t, order, small, big)) <==> ShortBigBlind(t, small)
  {
    hide StartHand, ShortBigBlind, Skips;
    if ShortBigBlind(t, small) {
      ShortBlindSkips(t, order, small, big);
    } else {
      forall agents: nat -> Decision, k: nat | PositiveRaises(agents)
        ensures !Skips(StartHand(t, order, small, big), agents, k)
      {
        OtherwiseNobodyIsSkipped(t, order, small, big, agents, k);
      }
    }
  }

  // ---------------------------------------------------------------- a raise by less than nothing

  lemma ThreePlayers(players: seq<nat>, seats: seq<Seat>, a: nat, b: nat, c: nat, z: nat)
    requires players == NonBusted(seats) && |players| == 3
    requires a in players && b in players && c in players && a != b && a != c && b != c && z in players
    ensures z == a || z == b || z == c
  {
    var s := Holding(seats, {Active, Folded, AllIn});
    assert {a, b, c} <= s && |{a, b, c}| == 3;
    if z !in {a, b, c} { SubsetSize({a, b, c, z}, s); }
  }

  /**
   * A hand of three players whose big blind is all-in for more than the small blind opens in order, and the third
   * player is to act. If that player lowers the bet to match to the small blind, the round closes before the small
   * blind has acted.
   */
  lemma NegativeRaiseSkips(t: Table, order: seq<Card>, small: int, big: int, p: nat)
    requires Placed(t) && |t.seats| <= 10 && |order| == 52 && NoDebts(t.seats) && 0 < small < big
    requires |NonBusted(ResetSeats(t.seats))| == 3
    requires t.seats[HandBlinds(t).0].chips > small && small < t.seats[HandBlinds(t).1].chips <= big
    requires p < |t.seats| && p != HandBlinds(t).0 && p != HandBlinds(t).1 && t.seats[p].chips > small
    ensures var h, sb := StartHand(t, order, small, big), HandBlinds(t).0;
            var amount := small - h.currentBet;
            && Fair(h, {}) && h.cur == p && amount < 0 && Accepts(h, p, Raise, amount)
            && var u := Step(h, p, Raise, amount);
               u.complete && ActiveSeats(u) == {sb, p} && sb !in ActedAfter(h, {}, u)
  {
    hide StartHand, HandBlinds, Dist, SeatsIn, RoundCloses, Scan, Fair, Overtaking, PastTurn, OthersLeft, Holding;
    var h := StartHand(t, order, small, big);
    var (sb, bb) := HandBlinds(t);
    HandOpensFairly(t, order, small, big);
    StartHandOpening(t, order, small, big);
    ThirdPlayerOpens(t, order, small, big, p);
    var amount := small - h.currentBet;
    assert SeatsSound(h.seats) by { StartHandLedger(t, order, small, big); }
    LoweredToSmallBlind(h, sb, bb, p, small);
    TurnOvertakes(TakeAction(h, Raise, amount), {p}, sb, bb, p, small, true);
  }

  lemma ThirdPlayerOpens(t: Table, order: seq<Card>, small: int, big: int, p: nat)
    requires Placed(t) && |t.seats| <= 10 && |order| == 52 && NoDebts(t.seats) && 0 < small < big
    requires |NonBusted(ResetSeats(t.seats))| == 3
    requires t.seats[HandBlinds(t).0].chips > small && small < t.seats[HandBlinds(t).1].chips <= big
    requires p < |t.seats| && p != HandBlinds(t).0 && p != HandBlinds(t).1 && t.seats[p].chips > small
    ensures var h, (sb, bb) := StartHand(t, order, small, big), HandBlinds(t);
            && h.cur == p && ActiveSeats(h) == {sb, p} && h.seats[p].bet == 0 && h.seats[p].chips > small
            && h.seats[sb].bet == small < h.currentBet
            && Dist(|h.seats|, bb, p) < Dist(|h.seats|, bb, sb)
  {
    hide StartHand, HandBlinds, Dist, SeatsIn;
    var h := StartHand(t, order, small, big);
    var (sb, bb) := HandBlinds(t);
    var players := NonBusted(ResetSeats(t.seats));
    StartHandOpening(t, order, small, big);
    StartHandOrder(t, order, small, big);
    assert OpeningSeat(t.seats[sb], h.seats[sb], true) && OpeningSeat(t.seats[bb], h.seats[bb], true);
    assert OpeningSeat(t.seats[p], h.seats[p], false);
    assert sb in players && bb in players && p in players;
    forall z | z in players ensures z == sb || z == bb || z == p {
      ThreePlayers(players, ResetSeats(t.seats), sb, bb, p, z);
    }
    forall z | z in ActiveSeats(h) ensures z in players && z != bb {
      assert OpeningSeat(t.seats[z], h.seats[z], z == sb || z == bb);
    }
    SmallBlindIsLast(t, players, p);
    assert p in ActiveSeats(h) && sb in ActiveSeats(h);
  }

  lemma LoweredToSmallBlind(h: Table, sb: nat, bb: nat, p: nat, small: int)
    requires Placed(h) && SeatsSound(h.seats) && !h.complete && bb < |h.seats| && h.cur == p && sb != p && 0 < small
    requires ActiveSeats(h) == {sb, p} && h.seats[p].bet == 0 && h.seats[p].chips > small
    requires h.seats[sb].bet == small < h.currentBet && Dist(|h.seats|, bb, p) < Dist(|h.seats|, bb, sb)
    ensures var t1 := TakeAction(h, Raise, small - h.currentBet);
            && Accepts(h, p, Raise, small - h.currentBet) && t1.currentBet == small
            && Overtaking(t1, {p}, sb, bb, p, small, true) && PastTurn(t1, bb, sb, p, true) && !OthersLeft(t1, sb, p)
  {
    hide Dist;
    var amount := small - h.currentBet;
    var t1 := TakeAction(h, Raise, amount);
    ActiveMeans(h);
    assert t1.seats[p].bet == small == t1.currentBet && t1.seats[p].status == Active;
    assert ActiveSeats(t1) == ActiveSeats(h);
    assert SeatsSound(t1.seats) by { ActingSeatMoves(h, Raise, amount); }
  }
}
