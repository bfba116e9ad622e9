/** When the betting loop of the driver comes to an end (poker/cli_ui.py:595-618). */
module Closing {
  import opened Prelude
  import opened Cards
  import opened TableModel
  import opened Bookkeeping

  /** One turn of the inner loop: skip a seat that cannot act, or take its decision, and fold it if that is refused. */
  function DriverStep(t: Table, d: Decision): (r: Table)
    requires Placed(t)
    ensures Placed(r)
  {
    if t.seats[t.cur].status != Active then Advance(t)
    else if Accepts(t, t.cur, d.action, d.amount) then Step(t, t.cur, d.action, d.amount)
    else Step(t, t.cur, Fold, 0)
  }

  /** The table after at most `k` turns; the loop stops when the round is complete. */
  function Drive(t: Table, agents: nat -> Decision, i: nat, k: nat): (r: Table)
    requires Placed(t)
    ensures Placed(r)
    decreases k
  {
    if k == 0 || t.complete then t else Drive(DriverStep(t, agents(i)), agents, i + 1, k - 1)
  }

  /** The decision is not a raise by a negative amount. */
  predicate Sensible(d: Decision) {
    d.action == Raise ==> d.amount >= 0
  }

  ghost predicate SensibleAgents(agents: nat -> Decision) {
    forall i: nat :: Sensible(agents(i))
  }

  ghost predicate Closes(t: Table, agents: nat -> Decision)
    requires Placed(t)
  {
    exists k: nat :: Drive(t, agents, 0, k).complete
  }

  /** Whatever the players decide, the betting loop ends. */
  ghost predicate AlwaysCloses(t: Table)
    requires Placed(t)
  {
    forall agents: nat -> Decision :: SensibleAgents(agents) ==> Closes(t, agents)
  }

  predicate StandoffBetween(t: Table, o: nat, p: nat) {
    && o < |t.seats| && p < |t.seats| && o != p
    && t.seats[o].status == Active && t.seats[p].status == Active
    && t.seats[o].bet > t.currentBet && t.seats[p].chips + t.seats[p].bet > t.currentBet
  }

  /** Some ACTIVE seat has bet more than the bet to match, and another could match that bet and have chips left. */
  ghost predicate Standoff(t: Table) {
    exists o, p :: StandoffBetween(t, o, p)
  }

  // ---------------------------------------------------------------- a standoff never ends

  lemma CallOrFoldKeepsStandoff(t: Table, o: nat, p: nat, action: Action)
    requires Placed(t) && SeatsSound(t.seats) && StandoffBetween(t, o, p) && t.seats[t.cur].status == Active
    requires action == if Accepts(t, t.cur, Call, 0) then Call else Fold
    ensures SeatsSound(TakeAction(t, action, 0).seats) && StandoffBetween(TakeAction(t, action, 0), o, p)
  {
    var s := t.seats[t.cur];
    ActingSeatMoves(t, action, 0);
    if action == Call { BetMoves(s, t.currentBet - s.bet); }
  }

  lemma CallKeepsStandoff(t: Table, o: nat, p: nat)
    requires Placed(t) && SeatsSound(t.seats) && !t.complete && StandoffBetween(t, o, p)
    ensures var t' := DriverStep(t, Decision(Call, 0));
            SeatsSound(t'.seats) && !t'.complete && StandoffBetween(t', o, p)
  {
    hide Accepts, RoundCloses;
    if t.seats[t.cur].status == Active {
      var a := if Accepts(t, t.cur, Call, 0) then Call else Fold;
      FoldIsAccepted(t);
      CallOrFoldKeepsStandoff(t, o, p, a);
      var t1 := TakeAction(t, a, 0);
      NotClosed(Advance(t1), o, p);
    }
  }

  /** The player to act can always fold. */
  lemma FoldIsAccepted(t: Table)
    requires Placed(t) && t.seats[t.cur].status == Active
    ensures Accepts(t, t.cur, Fold, 0)
  {
  }

  lemma TwoMembers(s: seq<nat>, o: nat, p: nat)
    requires o in s && p in s && o != p
    ensures |s| >= 2
  {
  }

  lemma NotClosed(t: Table, o: nat, p: nat)
    requires Placed(t) && StandoffBetween(t, o, p)
    ensures !RoundCloses(t)
  {
    TwoMembers(SeatsIn(t.seats, {Active}), o, p);
  }

  lemma {:induction false} StandoffLasts(t: Table, o: nat, p: nat, agents: nat -> Decision, i: nat, k: nat)
    requires Placed(t) && SeatsSound(t.seats) && !t.complete && StandoffBetween(t, o, p)
    requires forall j: nat :: j >= i ==> agents(j) == Decision(Call, 0)
    ensures !Drive(t, agents, i, k).complete
    decreases k
  {
    hide DriverStep, StandoffBetween, SeatsSound;
    if k > 0 {
      CallKeepsStandoff(t, o, p);
      StandoffLasts(DriverStep(t, agents(i)), o, p, agents, i + 1, k - 1);
    }
  }

  /** The bet to match after a raise by `amount`: a negative amount lowers it, but not below what the raiser has bet. */
  function RaisedBet(t: Table, amount: int): int
    requires Placed(t)
  {
    Max(t.seats[t.cur].bet, t.currentBet + amount)
  }

  /**
   * A raise, of any amount, by a player who keeps chips leaves a standoff exactly if another ACTIVE seat has bet more
   * than the new bet to match.
   */
  lemma RaiseIntoStandoff(t: Table, amount: int)
    requires Placed(t) && SeatsSound(t.seats) && !t.complete && Accepts(t, t.cur, Raise, amount)
    requires t.seats[t.cur].chips > t.currentBet - t.seats[t.cur].bet + amount
    ensures var u := Step(t, t.cur, Raise, amount);
            && SeatsSound(u.seats) && (Standoff(u) ==> !u.complete)
            && (Standoff(u) <==> exists o: nat :: o < |t.seats| && o != t.cur && t.seats[o].status == Active
                                               && t.seats[o].bet > RaisedBet(t, amount))
  {
    hide RoundCloses;
    var s, u := t.seats[t.cur], Step(t, t.cur, Raise, amount);
    ActingSeatMoves(t, Raise, amount);
    BetMoves(s, t.currentBet - s.bet + amount);
    assert u.seats[t.cur].bet == u.currentBet == RaisedBet(t, amount) && u.seats[t.cur].chips > 0;
    forall o: nat | o < |t.seats| && o != t.cur && t.seats[o].status == Active && t.seats[o].bet > RaisedBet(t, amount)
      ensures StandoffBetween(u, o, t.cur)
    {
    }
    if o: nat, p: nat :| StandoffBetween(u, o, p) {
      assert o != t.cur && u.seats[o] == t.seats[o];
      NotClosed(Advance(TakeAction(t, Raise, amount)), o, p);
    }
  }

  // ---------------------------------------------------------------- otherwise every turn makes progress

  /** 1 if the turn is at a seat that cannot act. */
  function Idle(t: Table): nat
    requires Placed(t)
  {
    if t.seats[t.cur].status == Active then 0 else 1
  }

  /** Chips that can still be bet, and players who can still fold. */
  function Resources(t: Table): int {
    Sum(Chips(t.seats)) + |Holding(t.seats, {Active})|
  }

  /** By how much each ACTIVE seat has bet more than the bet to match. */
  function Overbets(t: Table): (r: seq<int>)
    ensures |r| == |t.seats| && forall i :: 0 <= i < |r| ==>
              r[i] == if t.seats[i].status == Active then Max(0, t.seats[i].bet - t.currentBet) else 0
  {
    seq(|t.seats|, i requires 0 <= i < |t.seats| =>
      if t.seats[i].status == Active then Max(0, t.seats[i].bet - t.currentBet) else 0)
  }

  predicate Owes(t: Table, i: nat) {
    i < |t.seats| && t.seats[i].status == Active && t.seats[i].bet < t.currentBet
  }

  /** Steps from seat `a` to seat `b`; none from a seat to itself. */
  function Steps(n: nat, a: nat, b: nat): nat
    requires a < n && b < n
  {
    if a <= b then b - a else b + n - a
  }

  /** Steps from the current seat to the nearest one that owes chips, counted from `i`; `|seats|` if nobody owes. */
  function StepsToOwing(t: Table, i: nat): (r: nat)
    requires Placed(t) && i <= |t.seats|
    ensures i <= r <= |t.seats|
    ensures r < |t.seats| ==> Owes(t, Wrap(t.cur + r, |t.seats|))
    ensures forall z: nat :: Owes(t, z) && i <= Steps(|t.seats|, t.cur, z) ==> r <= Steps(|t.seats|, t.cur, z)
    decreases |t.seats| - i
  {
    if i == |t.seats| then i
    else if Owes(t, Wrap(t.cur + i, |t.seats|)) then i
    else StepsToOwing(t, i + 1)
  }

  /** The seat at which a round without bets closes. */
  function Goal(t: Table): (r: Option<nat>)
    requires Placed(t)
    ensures r.Some? ==> r.value < |t.seats| && t.seats[r.value].status == Active
  {
    if t.lastRaiser.None? then FirstActor(t) else NextActiveFrom(t, t.lastRaiser.value)
  }

  /** How far the turn is from the seat that must pay or, if nobody owes, from the seat that closes the round. */
  function Distance(t: Table): nat
    requires Placed(t)
  {
    if StepsToOwing(t, 0) < |t.seats| then StepsToOwing(t, 0)
    else if Goal(t).Some? then Dist(|t.seats|, t.cur, Goal(t).value)
    else 0
  }

  ghost predicate Progress(t: Table, t': Table)
    requires Placed(t) && Placed(t')
  {
    || t'.complete
    || Idle(t') < Idle(t)
    || (Idle(t') == Idle(t) && Resources(t') < Resources(t))
    || (Idle(t') == Idle(t) && Resources(t') == Resources(t) && Sum(Overbets(t')) < Sum(Overbets(t)))
    || (Idle(t') == Idle(t) && Resources(t') == Resources(t) && Sum(Overbets(t')) == Sum(Overbets(t))
        && Distance(t') < Distance(t))
  }

  lemma ResourcesArePositive(t: Table)
    requires SeatsSound(t.seats)
    ensures Resources(t) >= 0 && Sum(Overbets(t)) >= 0
  {
    SumIsNonNegative(Chips(t.seats));
    SumIsNonNegative(Overbets(t));
  }

  /** Paying chips or leaving the round uses up resources. */
  lemma PayingUsesResources(t: Table, action: Action, amount: int)
    requires Placed(t) && SeatsSound(t.seats) && Accepts(t, t.cur, action, amount)
    ensures var t1, s, s' := TakeAction(t, action, amount), t.seats[t.cur], ActingSeat(t, action, amount);
            && SeatsSound(t1.seats) && Resources(t1) <= Resources(t)
            && (Resources(t1) < Resources(t) || t1.seats == t.seats)
            && (t1.seats != t.seats ==> s' != s)
  {
    var s, s', t1 := t.seats[t.cur], ActingSeat(t, action, amount), TakeAction(t, action, amount);
    ActingSeatMoves(t, action, amount);
    assert Chips(t1.seats) == Chips(t.seats)[t.cur := s'.chips];
    SumUpdate(Chips(t.seats), t.cur, s'.chips);
    var a, a1 := Holding(t.seats, {Active}), Holding(t1.seats, {Active});
    if s'.status == Active {
      assert a1 == a;
    } else {
      assert a1 == a - {t.cur} && t.cur in a;
    }
    if s'.chips == s.chips && s'.status == Active {
      UnpaidMeansUnchanged(t, action, amount);
      assert t1.seats == t.seats;
    }
  }

  lemma UnpaidMeansUnchanged(t: Table, action: Action, amount: int)
    requires Placed(t) && SeatsSound(t.seats) && Accepts(t, t.cur, action, amount)
    requires ActingSeat(t, action, amount).chips == t.seats[t.cur].chips
             && ActingSeat(t, action, amount).status == Active
    ensures ActingSeat(t, action, amount) == t.seats[t.cur]
    ensures action in {Check, Call, Raise}
    ensures action == Check || action == Call ==> t.seats[t.cur].bet >= t.currentBet
    ensures action == Raise && amount >= 0 ==> t.seats[t.cur].bet >= t.currentBet
    ensures action == Raise ==> TakeAction(t, action, amount).currentBet == t.seats[t.cur].bet
  {
  }

  lemma {:induction false} SumBelow(a: seq<int>, b: seq<int>, k: nat)
    requires |a| == |b| && k < |a| && a[k] < b[k] && forall i :: 0 <= i < |a| ==> a[i] <= b[i]
    ensures Sum(a) < Sum(b)
  {
    var c := seq(|a|, i requires 0 <= i < |a| => b[i] - a[i]);
    SumAdds(a, c, b);
    SumIsNonNegative(c);
    assert c[k] > 0;
  }

  /** Whoever closes the gap to a goal in the direction of play comes nearer to it. */
  lemma NextIsNearer(n: nat, x: nat, y: nat, z: nat)
    requires x < n && y < n && z < n && Dist(n, x, y) <= Dist(n, x, z) && y != z
    ensures Dist(n, y, z) < Dist(n, x, z)
  {
  }

  lemma OwingIsNearer(t: Table, t': Table)
    requires Placed(t) && Placed(t') && t'.seats == t.seats && t'.currentBet == t.currentBet
    requires !Owes(t, t.cur) && StepsToOwing(t, 0) < |t.seats|
    requires Scan(t.seats, t.cur, 1, |t.seats|) == Some(t'.cur)
    ensures StepsToOwing(t', 0) < StepsToOwing(t, 0)
  {
    var n, r := |t.seats|, StepsToOwing(t, 0);
    var z := Wrap(t.cur + r, n);
    assert Owes(t, z) && Owes(t', z) && z != t.cur;
    assert Steps(n, t.cur, z) == Dist(n, t.cur, z) == r;
    assert Steps(n, t'.cur, z) < r;
  }

  lemma NobodyOwes(t: Table, i: nat)
    requires Placed(t) && StepsToOwing(t, 0) == |t.seats|
    ensures !Owes(t, i)
  {
    if i < |t.seats| { assert Steps(|t.seats|, t.cur, i) < |t.seats|; }
  }

  lemma SameOwing(t: Table, t': Table)
    requires Placed(t) && Placed(t') && t'.seats == t.seats && t'.currentBet == t.currentBet
    requires StepsToOwing(t, 0) == |t.seats|
    ensures StepsToOwing(t', 0) == |t.seats|
  {
    var r := StepsToOwing(t', 0);
    if r < |t.seats| {
      NobodyOwes(t, Wrap(t'.cur + r, |t.seats|));
    }
  }

  /** A turn that changes no seat and no bet closes the round or brings it nearer to its end. */
  lemma QuietTurn(t: Table, t1: Table)
    requires Placed(t) && SeatsSound(t.seats) && !Standoff(t) && t.seats[t.cur].status == Active
    requires t.seats[t.cur].bet >= t.currentBet
    requires t1 == t.(lastRaiser := t1.lastRaiser, raised := t1.raised) && Placed(t1)
    requires (t1.lastRaiser == t.lastRaiser && t1.raised == t.raised) || (t1.lastRaiser.Some? && t1.raised)
    ensures Advance(t1).complete || RoundCloses(Advance(t1)) || Distance(Advance(t1)) < Distance(t)
  {
    var t2 := Advance(t1);
    assert Dist(|t.seats|, t.cur, t.cur) == |t.seats|;
    assert Scan(t.seats, t.cur, 1, |t.seats|) == Some(t2.cur);
    if StepsToOwing(t, 0) < |t.seats| {
      OwingIsNearer(t, t2);
    } else if !RoundCloses(t2) {
      SameOwing(t, t2);
      forall i: nat | i < |t.seats| && t.seats[i].status == Active ensures t.seats[i].bet >= t.currentBet {
        NobodyOwes(t, i);
      }
      MatchedRound(t, t2);
    }
  }

  lemma MatchedRound(t: Table, t2: Table)
    requires Placed(t) && Placed(t2) && SeatsSound(t.seats) && !Standoff(t) && !RoundCloses(t2)
    requires t.seats[t.cur].status == Active
             && t2 == t.(cur := t2.cur, lastRaiser := t2.lastRaiser, raised := t2.raised)
    requires (t2.lastRaiser == t.lastRaiser && t2.raised == t.raised) || (t2.lastRaiser.Some? && t2.raised)
    requires Scan(t.seats, t.cur, 1, |t.seats|) == Some(t2.cur)
    requires StepsToOwing(t, 0) == |t.seats| && StepsToOwing(t2, 0) == |t.seats|
    requires forall i: nat :: i < |t.seats| && t.seats[i].status == Active ==> t.seats[i].bet >= t.currentBet
    ensures Distance(t2) < Distance(t)
  {
    hide RoundCloses, SeatsIn, Scan, StepsToOwing, Standoff, Goal, Dist;
    SeveralActive(t2);
    NobodyOverbets(t);
    OpenRound(t2);
    assert t2.lastRaiser == t.lastRaiser && t2.raised == t.raised;
    GoalExists(t);
    SameGoal(t, t2);
    NextIsNearer(|t.seats|, t.cur, t2.cur, Goal(t).value);
  }

  lemma SameGoal(t: Table, t2: Table)
    requires Placed(t) && Placed(t2) && t2 == t.(cur := t2.cur)
    ensures Goal(t2) == Goal(t)
  {
    hide Scan, SeatsIn, BigBlindSeat;
  }

  lemma OpenRound(t: Table)
    requires Placed(t) && !RoundCloses(t) && |SeatsIn(t.seats, {Active})| >= 2 && AllMatched(t)
    ensures t.lastRaiser.Some? ==> !t.raised && t.lastRaiser.value in SeatsIn(t.seats, {Active})
    ensures Goal(t) != Some(t.cur)
  {
  }

  lemma SeveralActive(t: Table)
    requires Placed(t) && !RoundCloses(t)
    requires forall i: nat :: i < |t.seats| && t.seats[i].status == Active ==> t.seats[i].bet >= t.currentBet
    ensures |SeatsIn(t.seats, {Active})| >= 2
  {
    var active := SeatsIn(t.seats, {Active});
    if active != [] { assert active[0] in active; }
  }

  lemma NobodyOverbets(t: Table)
    requires Placed(t) && SeatsSound(t.seats) && !Standoff(t) && |SeatsIn(t.seats, {Active})| >= 2
    requires forall i: nat :: i < |t.seats| && t.seats[i].status == Active ==> t.seats[i].bet >= t.currentBet
    ensures AllMatched(t)
  {
    var active := SeatsIn(t.seats, {Active});
    forall i: nat | i < |t.seats| && t.seats[i].status == Active ensures t.seats[i].bet == t.currentBet {
      var other := if active[0] == i then active[1] else active[0];
      assert other in active;
      if t.seats[i].bet > t.currentBet { assert StandoffBetween(t, i, other); }
    }
  }

  lemma GoalExists(t: Table)
    requires Placed(t) && |SeatsIn(t.seats, {Active})| >= 2
    requires t.lastRaiser.Some? ==> t.lastRaiser.value in SeatsIn(t.seats, {Active})
    ensures Goal(t).Some?
  {
    if t.lastRaiser.Some? {
      var active := SeatsIn(t.seats, {Active});
      var other := if active[0] == t.lastRaiser.value then active[1] else active[0];
      assert other in active && Dist(|t.seats|, t.lastRaiser.value, other) < |t.seats|;
    }
  }

  /** A step of a sensible player keeps a table without a standoff that way. */
  lemma NoStandoffArises(t: Table, action: Action, amount: int)
    requires Placed(t) && SeatsSound(t.seats) && Accepts(t, t.cur, action, amount) && Sensible(Decision(action, amount))
    requires !Standoff(t)
    ensures !Standoff(TakeAction(t, action, amount))
  {
    var t1, s, s' := TakeAction(t, action, amount), t.seats[t.cur], ActingSeat(t, action, amount);
    ActingSeatMoves(t, action, amount);
    if action == Raise { BetMoves(s, t.currentBet - s.bet + amount); }
    assert t1.currentBet >= t.currentBet;
    if o, p :| StandoffBetween(t1, o, p) {
      assert StandoffBetween(t, o, p);
    }
  }

  lemma SameSeatsNoStandoff(t: Table, t': Table)
    requires !Standoff(t) && t'.seats == t.seats && t'.currentBet == t.currentBet
    ensures !Standoff(t')
  {
    if o, p :| StandoffBetween(t', o, p) { assert StandoffBetween(t, o, p); }
  }

  lemma StepMakesProgress(t: Table, action: Action, amount: int)
    requires Placed(t) && SeatsSound(t.seats) && !t.complete && !Standoff(t)
    requires Accepts(t, t.cur, action, amount) && Sensible(Decision(action, amount))
    ensures var t' := Step(t, t.cur, action, amount);
            SeatsSound(t'.seats) && !Standoff(t') && Progress(t, t')
  {
    hide Scan, RoundCloses, Standoff, Distance, FirstActor;
    var t1 := TakeAction(t, action, amount);
    var t2 := Advance(t1);
    var t' := CheckComplete(t2);
    PayingUsesResources(t, action, amount);
    NoStandoffArises(t, action, amount);
    SameSeatsNoStandoff(t1, t');
    if !t'.complete {
      assert Resources(t') == Resources(t1) && Idle(t') == 0;
      if t1.seats == t.seats {
        assert t1.seats[t.cur] == ActingSeat(t, action, amount);
        UnpaidMeansUnchanged(t, action, amount);
        if t1.currentBet > t.currentBet {
          SumBelow(Overbets(t'), Overbets(t), t.cur);
        } else {
          assert Overbets(t') == Overbets(t);
          QuietTurn(t, t1);
          assert Distance(t') == Distance(t2);
        }
      }
    }
  }

  lemma DriverMakesProgress(t: Table, d: Decision)
    requires Placed(t) && SeatsSound(t.seats) && !t.complete && !Standoff(t) && Sensible(d)
    ensures var t' := DriverStep(t, d); SeatsSound(t'.seats) && !Standoff(t') && Progress(t, t')
  {
    if t.seats[t.cur].status != Active {
      SameSeatsNoStandoff(t, Advance(t));
    } else if Accepts(t, t.cur, d.action, d.amount) {
      StepMakesProgress(t, d.action, d.amount);
    } else {
      StepMakesProgress(t, Fold, 0);
    }
  }

  lemma {:induction false} ClosesFrom(t: Table, agents: nat -> Decision, i: nat) returns (k: nat)
    requires Placed(t) && SeatsSound(t.seats) && !Standoff(t) && SensibleAgents(agents)
    ensures Drive(t, agents, i, k).complete
    decreases !t.complete, Idle(t), Resources(t), Sum(Overbets(t)), Distance(t)
  {
    hide DriverStep, Standoff, SeatsSound, Idle, Resources, Overbets, Distance;
    if t.complete {
      k := 0;
    } else {
      DriverMakesProgress(t, agents(i));
      ResourcesArePositive(t);
      k := ClosesFrom(DriverStep(t, agents(i)), agents, i + 1);
      k := k + 1;
    }
  }

  /**
   * The betting loop ends for all decisions, of all players, that raise by no negative amount exactly if there is
   * no standoff. In a standoff it runs forever even if everybody just calls.
   */
  lemma RoundClosesUnlessStandoff(t: Table)
    requires Placed(t) && SeatsSound(t.seats) && !t.complete
    ensures AlwaysCloses(t) <==> !Standoff(t)
  {
    if o, p :| StandoffBetween(t, o, p) {
      var callers: nat -> Decision := i => Decision(Call, 0);
      forall k: nat ensures !Drive(t, callers, 0, k).complete { StandoffLasts(t, o, p, callers, 0, k); }
      assert SensibleAgents(callers) && !Closes(t, callers);
    } else {
      forall agents: nat -> Decision | SensibleAgents(agents) ensures Closes(t, agents) {
        var k := ClosesFrom(t, agents, 0);
      }
    }
  }

  // ---------------------------------------------------------------- which rounds open with a standoff

  /** After the flop nobody has bet yet, so there is no standoff. */
  lemma NewRoundHasNoStandoff(t: Table)
    requires Placed(t)
    ensures !Standoff(StartRound(t))
  {
  }

  /** The big blind posts less than the small blind, which has chips left, and a third player has more than it posts. */
  ghost predicate ShorterBigBlind(t: Table, sb: nat, bb: nat, small: int)
    requires sb < |t.seats| && bb < |t.seats|
  {
    && t.seats[bb].chips < small < t.seats[sb].chips
    && exists p: nat :: p < |t.seats| && p != sb && p != bb && t.seats[p].chips > t.seats[bb].chips
  }

  /** The hand about to be dealt would open with a standoff. */
  ghost predicate OpensInStandoff(t: Table, small: int)
    requires Placed(t) && |NonBusted(ResetSeats(t.seats))| >= 2
  {
    ShorterBigBlind(t, HandBlinds(t).0, HandBlinds(t).1, small)
  }

  /** When a hand opens with a standoff. */
  lemma OpeningStandoff(t: Table, order: seq<Card>, small: int, big: int)
    requires Placed(t) && |t.seats| <= 10 && |order| == 52 && NoDebts(t.seats) && 0 < small < big
    requires |NonBusted(ResetSeats(t.seats))| >= 2
    ensures Standoff(StartHand(t, order, small, big)) <==> OpensInStandoff(t, small)
  {
    hide StartHand, HandBlinds;
    StartHandOpening(t, order, small, big);
    StandoffAt(t, StartHand(t, order, small, big), HandBlinds(t).0, HandBlinds(t).1, small, big);
  }

  lemma StandoffAt(t: Table, h: Table, sb: nat, bb: nat, small: int, big: int)
    requires Opening(t, h, sb, bb, small, big) && 0 < small < big && NoDebts(t.seats)
    ensures Standoff(h) <==> ShorterBigBlind(t, sb, bb, small)
  {
    forall i: nat | i < |t.seats|
      ensures h.seats[i].bet + h.seats[i].chips == t.seats[i].chips && (i == sb || i == bb || h.seats[i].bet == 0)
      ensures h.seats[i].status == Active <==> h.seats[i].chips > 0 && t.seats[i].chips > 0
    {
      assert OpeningSeat(t.seats[i], h.seats[i], i == sb || i == bb);
    }
    if o, p :| StandoffBetween(h, o, p) {
      assert o == sb && p != bb;
    }
    if t.seats[bb].chips < small < t.seats[sb].chips {
      forall p: nat | p < |t.seats| && p != sb && p != bb && t.seats[p].chips > t.seats[bb].chips
        ensures StandoffBetween(h, sb, p)
      {
      }
    }
  }
}
