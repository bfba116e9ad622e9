/** How a hand comes to end with chips nobody can claim (poker/game.py:944-949, 1151-1158). */
module Unclaimed {
  import opened Prelude
  import opened Payout
  import opened TableModel
  import opened Bookkeeping
  import opened CardsInPlay
  import opened Settlement
  import opened Fairness
  import opened Rounds

  /** Nobody can act any more, and `p`, who has folded, put in more than each of the players still in the hand. */
  ghost predicate Stranded(t: Table, p: nat) {
    && p < |t.seats| && t.seats[p].status == Folded && ActiveSeats(t) == {} && |Remaining(t.seats)| >= 2
    && forall i :: i in Remaining(t.seats) ==> t.seats[i].total < t.seats[p].total
  }

  /** The betting of a street is over with `p` the only player able to act, who put in more than the others did. */
  ghost predicate LoneActive(t: Table, p: nat) {
    && t.complete && t.phase in {Preflop, Flop, Turn} && ActiveSeats(t) == {p} && |Remaining(t.seats)| >= 3
    && forall i :: i in Remaining(t.seats) && i != p ==> t.seats[i].total < t.seats[p].total
  }

  predicate SameStakes(a: seq<Seat>, b: seq<Seat>) {
    |a| == |b| && forall i :: 0 <= i < |a| ==> a[i].status == b[i].status && a[i].total == b[i].total
  }

  lemma SameStakesStrand(t: Table, u: Table, p: nat)
    requires SameStakes(t.seats, u.seats)
    ensures ActiveSeats(u) == ActiveSeats(t) && Remaining(u.seats) == Remaining(t.seats)
    ensures Stranded(t, p) ==> Stranded(u, p)
  {
    assert ActiveSeats(u) == ActiveSeats(t);
    assert Remaining(u.seats) == Remaining(t.seats);
  }

  lemma AdvanceKeepsStakes(t: Table)
    requires Placed(t) && EnoughCards(t)
    ensures SameStakes(t.seats, AdvancePhase(t).seats)
  {
    hide DealBoard, FirstActor;
    if t.complete && |Remaining(t.seats)| > 1 && t.phase in {Preflop, Flop, Turn} {
      DealKeeps(t.(phase := NextPhase(t.phase)), CardsOfPhase(t.phase));
    }
  }

  lemma EventKeepsStranded(t: Table, e: Event, p: nat)
    requires Playable(t) && Stranded(t, p)
    ensures Stranded(Exec(t, [e]), p)
  {
    hide AdvancePhase, Stranded, CardsSound;
    assert [e][..0] == [] && Exec(t, []) == t;
    match e
    case Request(id, action, amount) => NobodyActs(t, id, action, amount, p);
    case NextStreet =>
      PlayableMeans(t);
      AdvancePhaseKeepsCards(t);
      AdvanceKeepsStakes(t);
      SameStakesStrand(t, AdvancePhase(t), p);
  }

  lemma NobodyActs(t: Table, id: int, action: Action, amount: int, p: nat)
    requires Placed(t) && Stranded(t, p)
    ensures Step(t, id, action, amount) == t
  {
    assert t.cur !in ActiveSeats(t);
  }

  /** On the next street the lone player is asked to act. */
  lemma LoneActiveIsAsked(t: Table, p: nat)
    requires Placed(t) && EnoughCards(t) && LoneActive(t, p)
    ensures var u := AdvancePhase(t);
            && !u.complete && u.cur == p && SameStakes(t.seats, u.seats) && Accepts(u, p, Fold, 0)
  {
    hide StartRound, DealBoard;
    AdvanceKeepsStakes(t);
    var t1 := t.(phase := NextPhase(t.phase));
    var d := DealBoard(t1, CardsOfPhase(t.phase));
    DealKeeps(t1, CardsOfPhase(t.phase));
    assert ActiveSeats(d) == {p};
    NewRoundOpens(d);
    var u := StartRound(d);
    assert u == AdvancePhase(t);
    assert u.cur in ActiveSeats(u);
  }

  lemma LoneFoldStrands(t: Table, u: Table, p: nat)
    requires Placed(u) && LoneActive(t, p) && SameStakes(t.seats, u.seats) && u.cur == p && Accepts(u, p, Fold, 0)
    ensures Stranded(Step(u, p, Fold, 0), p)
  {
    hide Scan, RoundCloses;
    var v := Step(u, p, Fold, 0);
    SameStakesStrand(t, u, p);
    var f := TakeAction(u, Fold, 0);
    assert f.seats == u.seats[p := u.seats[p].(status := Folded)];
    ActiveMeans(u);
    ActiveMeans(f);
    assert ActiveSeats(f) == ActiveSeats(u) - {p} && Remaining(f.seats) == Remaining(u.seats) - {p};
    assert v.seats == f.seats;
    assert p in Remaining(t.seats);
  }

  lemma {:induction false} LoneFoldStays(t: Table, events: seq<Event>, p: nat)
    requires Playable(t) && LoneActive(t, p)
    requires |events| >= 2 && events[0] == NextStreet && events[1] == Request(p, Fold, 0)
    ensures Stranded(Exec(t, events), p)
  {
    hide AdvancePhase, Step, Stranded, LoneActive, CardsSound;
    var n := |events| - 1;
    if n == 1 {
      assert events[..1] == [NextStreet] && events[..1][..0] == [];
      PlayableMeans(t);
      AdvancePhaseKeepsCards(t);
      LoneActiveIsAsked(t, p);
      assert Exec(t, events[..1][..0]) == t;
      assert Exec(t, events[..1]) == AdvancePhase(t);
      LoneFoldStrands(t, AdvancePhase(t), p);
    } else {
      LoneFoldStays(t, events[..n], p);
      var u := Exec(t, events[..n]);
      EventKeepsStranded(u, events[n], p);
      assert [events[n]][..0] == [] && Exec(u, []) == u;
      assert Exec(t, events) == Exec(u, [events[n]]);
    }
  }

  /**
   * A lone player able to act, who put in more than the all-in players against whom the board is run out, may still
   * fold on the next street. Whatever happens then, the showdown leaves chips in the pot that nobody can claim.
   */
  lemma LoneFoldLosesChips(t: Table, stake: int, events: seq<Event>, p: nat)
    requires Playable(t) && Ledger(t, stake) && LoneActive(t, p)
    requires |events| >= 2 && events[0] == NextStreet && events[1] == Request(p, Fold, 0)
    ensures var v := Exec(t, events);
            HasCards(v) && |Remaining(v.seats)| >= 2 && Settle(v).pot > 0
            && Sum(Chips(Settle(v).seats)) == stake - Settle(v).pot
  {
    hide Playable, Ledger, Exec, Settle, LoneActive, Sum;
    LoneFoldStays(t, events, p);
    RunKeepsLedger(t, events, stake);
    var v := Exec(t, events);
    LiveHandsHaveCards(v);
    StrandedExcess(v, stake, p);
  }

  lemma StrandedExcess(v: Table, stake: int, p: nat)
    requires Ledger(v, stake) && HasCards(v) && Stranded(v, p)
    ensures Settle(v).pot > 0 && Sum(Chips(Settle(v).seats)) + Settle(v).pot == stake
  {
    hide Settle, Sum, LiveHands, Excess;
    ShowdownPaysThePot(v, stake);
    LedgerMeans(v, stake);
    var contrib, hands := Contributions(v.seats), LiveHands(v);
    var m := MaxLive(contrib, hands);
    if m > 0 {
      var i :| i in hands && i < |contrib| && contrib[i] == m;
      assert i in Remaining(v.seats);
    }
    assert v.seats[p].total > m by { LiveAreNonNegative(v, stake, p); }
    SumIsNonNegative(Excess(contrib, m));
    assert Excess(contrib, m)[p] == contrib[p] - m > 0;
  }

  lemma LiveAreNonNegative(v: Table, stake: int, p: nat)
    requires Ledger(v, stake) && Stranded(v, p)
    ensures v.seats[p].total > 0
  {
    assert Remaining(v.seats) != {};
    var i :| i in Remaining(v.seats);
    assert 0 <= v.seats[i].total < v.seats[p].total;
  }
}
