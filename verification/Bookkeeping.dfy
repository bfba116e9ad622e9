/** What every step of a hand keeps: the chips, the stakes of the round, and the cards. */
module Bookkeeping {
  import opened Prelude
  import opened Cards
  import opened TableModel

  // ---------------------------------------------------------------- chips

  function Chips(seats: seq<Seat>): (r: seq<int>)
    ensures |r| == |seats| && forall i :: 0 <= i < |r| ==> r[i] == seats[i].chips
  {
    seq(|seats|, i requires 0 <= i < |seats| => seats[i].chips)
  }

  function Totals(seats: seq<Seat>): (r: seq<int>)
    ensures |r| == |seats| && forall i :: 0 <= i < |r| ==> r[i] == seats[i].total
  {
    seq(|seats|, i requires 0 <= i < |seats| => seats[i].total)
  }

  /** No negative amounts, and the stack is empty exactly for ALL_IN and BUSTED seats. */
  predicate SeatSound(s: Seat) {
    0 <= s.bet <= s.total && 0 <= s.chips && (s.chips == 0 <==> s.status in {AllIn, Busted})
  }

  predicate SeatsSound(seats: seq<Seat>) {
    forall i :: 0 <= i < |seats| ==> SeatSound(seats[i])
  }

  /** The pot is what the players put in this hand, and pot and stacks together are the chips of the hand's start. */
  predicate Ledger(t: Table, stake: int) {
    SeatsSound(t.seats) && t.pot == Sum(Totals(t.seats)) && Sum(Chips(t.seats)) + t.pot == stake
  }

  lemma LedgerIsSound(t: Table, stake: int)
    requires Ledger(t, stake)
    ensures SeatsSound(t.seats)
  {
  }

  /** A seat that moved chips from its stack into the pot. */
  predicate Moved(s: Seat, s': Seat) {
    s'.chips + s'.total == s.chips + s.total && s'.total - s'.bet == s.total - s.bet
    && s'.chips <= s.chips && SeatSound(s')
  }

  lemma ReplaceSeat(t: Table, k: nat, s': Seat, t': Table, stake: int)
    requires Ledger(t, stake) && k < |t.seats| && Moved(t.seats[k], s')
    requires t'.seats == t.seats[k := s'] && t'.pot == t.pot + s'.total - t.seats[k].total
    ensures Ledger(t', stake)
  {
    assert Chips(t'.seats) == Chips(t.seats)[k := s'.chips];
    assert Totals(t'.seats) == Totals(t.seats)[k := s'.total];
    SumUpdate(Chips(t.seats), k, s'.chips);
    SumUpdate(Totals(t.seats), k, s'.total);
  }

  lemma BetMoves(s: Seat, amount: int)
    requires SeatSound(s)
    ensures Moved(s, BetSeat(s, amount)) && BetPaid(s, amount) == BetSeat(s, amount).total - s.total
    ensures s.chips > 0 && s.status == Active ==> BetSeat(s, amount).status in {Active, AllIn}
    ensures amount <= s.chips ==> BetSeat(s, amount).bet == s.bet + Max(amount, 0)
  {
  }

  lemma ActingSeatMoves(t: Table, action: Action, amount: int)
    requires Placed(t) && SeatsSound(t.seats) && Accepts(t, t.cur, action, amount)
    ensures Moved(t.seats[t.cur], ActingSeat(t, action, amount))
  {
    var s := t.seats[t.cur];
    match action
    case Call => BetMoves(s, t.currentBet - s.bet);
    case Raise => BetMoves(s, t.currentBet - s.bet + amount);
    case GoAllIn => BetMoves(s, s.chips);
    case _ =>
  }

  /** Whatever a player asks for, with whatever amount, no chip appears or disappears. */
  lemma StepKeepsLedger(t: Table, id: int, action: Action, amount: int, stake: int)
    requires Placed(t) && Ledger(t, stake)
    ensures Ledger(Step(t, id, action, amount), stake)
  {
    if Accepts(t, id, action, amount) {
      ActingSeatMoves(t, action, amount);
      var t1 := TakeAction(t, action, amount);
      ReplaceSeat(t, t.cur, ActingSeat(t, action, amount), t1, stake);
      assert Step(t, id, action, amount).seats == t1.seats && Step(t, id, action, amount).pot == t1.pot;
    }
  }

  lemma DealBoardKeepsSeats(t: Table, k: nat)
    requires Placed(t) && |t.deck| >= k + 1
    ensures DealBoard(t, k).seats == t.seats && DealBoard(t, k).pot == t.pot
  {
    DealKeeps(t, k);
  }

  lemma AdvancePhaseKeepsLedger(t: Table, stake: int)
    requires Placed(t) && EnoughCards(t) && Ledger(t, stake)
    ensures Ledger(AdvancePhase(t), stake)
  {
    hide Sum, FirstActor, DealBoard, Holding;
    var t' := AdvancePhase(t);
    if t.complete && |Remaining(t.seats)| > 1 && t.phase in {Preflop, Flop, Turn} {
      DealBoardKeepsSeats(t.(phase := NextPhase(t.phase)), CardsOfPhase(t.phase));
    }
    if t'.seats != t.seats {
      assert t'.seats == ResetBets(t.seats);
    }
    assert Chips(ResetBets(t.seats)) == Chips(t.seats);
    assert Totals(ResetBets(t.seats)) == Totals(t.seats);
  }

  // ---------------------------------------------------------------- the start of a hand

  predicate NoDebts(seats: seq<Seat>) {
    forall i :: 0 <= i < |seats| ==> seats[i].chips >= 0
  }

  lemma {:induction false} ZeroTotals(seats: seq<Seat>)
    requires forall i :: 0 <= i < |seats| ==> seats[i].total == 0
    ensures Sum(Totals(seats)) == 0
  {
    if seats != [] {
      ZeroTotals(seats[..|seats| - 1]);
      assert Totals(seats)[..|seats| - 1] == Totals(seats[..|seats| - 1]);
    }
  }

  lemma ClearedLedger(t: Table, order: seq<Card>)
    requires Placed(t) && NoDebts(t.seats)
    ensures Ledger(ClearTable(t, order), Sum(Chips(t.seats)))
  {
    var t0 := ClearTable(t, order);
    ZeroTotals(t0.seats);
    assert Chips(t0.seats) == Chips(t.seats);
  }

  /** Seats that differ only in cards and flags. */
  predicate SameMoney(a: seq<Seat>, b: seq<Seat>) {
    |a| == |b| && forall i :: 0 <= i < |a| ==>
      a[i].chips == b[i].chips && a[i].bet == b[i].bet && a[i].total == b[i].total && a[i].status == b[i].status
  }

  lemma SameMoneySameLedger(t: Table, t': Table, stake: int)
    requires Ledger(t, stake) && SameMoney(t.seats, t'.seats) && t'.pot == t.pot
    ensures Ledger(t', stake)
  {
    assert Chips(t'.seats) == Chips(t.seats) && Totals(t'.seats) == Totals(t.seats);
  }

  lemma PostSmallBlindKeepsLedger(t: Table, pos: nat, amount: int, stake: int)
    requires pos < |t.seats| && Ledger(t, stake)
    ensures Ledger(PostSmallBlind(t, pos, amount), stake)
  {
    var s := t.seats[pos].(isSmallBlind := true);
    BetMoves(s, amount);
    ReplaceSeat(t, pos, BetSeat(s, amount), PostSmallBlind(t, pos, amount), stake);
  }

  lemma PostBigBlindKeepsLedger(t: Table, pos: nat, amount: int, stake: int)
    requires pos < |t.seats| && Ledger(t, stake)
    ensures Ledger(PostBigBlind(t, pos, amount), stake)
  {
    var s := t.seats[pos].(isBigBlind := true);
    BetMoves(s, amount);
    ReplaceSeat(t, pos, BetSeat(s, amount), PostBigBlind(t, pos, amount), stake);
  }

  lemma {:induction false} DealRoundKeepsMoney(t: Table, i: nat)
    requires i <= |t.seats| && |t.deck| >= |t.seats| - i
    ensures SameMoney(t.seats, DealRound(t, i).seats)
    decreases |t.seats| - i
  {
    if i < |t.seats| {
      if t.seats[i].status == Busted {
        DealRoundKeepsMoney(t, i + 1);
      } else {
        DealRoundKeepsMoney(CardGiven(t, i), i + 1);
      }
    }
  }

  lemma DealHoleKeepsMoney(t: Table)
    requires |t.deck| >= 2 * |t.seats|
    ensures SameMoney(t.seats, DealHole(t).seats)
  {
    DealRoundKeepsMoney(t, 0);
    DealRoundKeepsMoney(DealRound(t, 0), 0);
  }

  /** A hand starts with the books in order: the stake is what the players own at that moment. */
  lemma StartHandLedger(t: Table, order: seq<Card>, small: int, big: int)
    requires Placed(t) && |t.seats| <= 10 && |order| == 52 && NoDebts(t.seats)
    ensures Ledger(StartHand(t, order, small, big), Sum(Chips(t.seats)))
  {
    hide SeatsIn, IndexOf, Sum, DealHole, BlindSeats, NextDealer;
    var stake := Sum(Chips(t.seats));
    var t0 := ClearTable(t, order);
    ClearedLedger(t, order);
    if |NonBusted(t0.seats)| >= 2 {
      var t1 := MoveButton(t0);
      ButtonIsPlayed(t0);
      SameMoneySameLedger(t0, t1, stake);
      BlindSeatsArePlayers(t1);
      var (sb, bb) := BlindSeats(NonBusted(t1.seats), t1.dealer);
      PostSmallBlindKeepsLedger(t1, sb, small, stake);
      PostBigBlindKeepsLedger(PostSmallBlind(t1, sb, small), bb, big, stake);
      var t2 := PostBlinds(t1, small, big);
      DealHoleKeepsMoney(t2);
      SameMoneySameLedger(t2, StartHand(t, order, small, big), stake);
    }
  }

  // ---------------------------------------------------------------- the bet to match

  /** The bet to match is the largest bet of the round. */
  predicate TopBet(t: Table) {
    && (forall i :: 0 <= i < |t.seats| ==> t.seats[i].bet <= t.currentBet)
    && (exists i :: 0 <= i < |t.seats| && t.seats[i].bet == t.currentBet)
  }

  /** Every accepted action keeps that, but for a negative raise by a player who still owes chips. */
  lemma StepKeepsTopBet(t: Table, action: Action, amount: int)
    requires Placed(t) && SeatsSound(t.seats) && TopBet(t) && Accepts(t, t.cur, action, amount)
    ensures TopBet(Step(t, t.cur, action, amount))
       <==> action != Raise || amount >= 0 || t.seats[t.cur].bet == t.currentBet
  {
    var s, s' := t.seats[t.cur], ActingSeat(t, action, amount);
    var t1 := TakeAction(t, action, amount);
    var t' := Step(t, t.cur, action, amount);
    assert t'.seats == t1.seats && t'.currentBet == t1.currentBet;
    var top :| 0 <= top < |t.seats| && t.seats[top].bet == t.currentBet;
    if top != t.cur { assert t1.seats[top].bet == t.currentBet; }
    assert t1.seats[t.cur] == s';
    match action {
      case Call => BetMoves(s, t.currentBet - s.bet);
      case Raise => BetMoves(s, t.currentBet - s.bet + amount);
      case GoAllIn => BetMoves(s, s.chips);
      case _ =>
    }
  }

  lemma NewRoundTopBet(t: Table)
    requires Placed(t)
    ensures TopBet(StartRound(t))
  {
    assert StartRound(t).seats[t.cur].bet == 0;
  }

  lemma AdvancePhaseKeepsTopBet(t: Table)
    requires Placed(t) && EnoughCards(t) && TopBet(t)
    ensures TopBet(AdvancePhase(t))
  {
    hide StartRound, DealBoard;
    if t.complete && |Remaining(t.seats)| > 1 && t.phase in {Preflop, Flop, Turn} {
      var t1 := t.(phase := NextPhase(t.phase));
      DealKeeps(t1, CardsOfPhase(t.phase));
      NewRoundTopBet(DealBoard(t1, CardsOfPhase(t.phase)));
    } else {
      assert AdvancePhase(t) == t.(phase := AdvancePhase(t).phase);
    }
  }

  /** What a player with `chips` chips can post of a blind. */
  function Posted(chips: int, blind: int): int {
    Min(blind, chips)
  }

  /** The seats of the blinds of the hand about to start. */
  function HandBlinds(t: Table): (r: (nat, nat))
    requires Placed(t) && |NonBusted(ResetSeats(t.seats))| >= 2
    ensures r.0 < |t.seats| && r.1 < |t.seats| && r.0 != r.1
  {
    ButtonIsPlayed(ClearTable(t, t.deck));
    BlindSeatsArePlayers(MoveButton(ClearTable(t, t.deck)));
    BlindSeats(NonBusted(ResetSeats(t.seats)), NextDealer(ResetSeats(t.seats), t.dealer))
  }

  /** The table once the blinds are posted. */
  function Blinded(t: Table, order: seq<Card>, small: int, big: int): (r: Table)
    requires Placed(t) && |NonBusted(ResetSeats(t.seats))| >= 2
    ensures Placed(r) && |r.seats| == |t.seats| && r.deck == order
  {
    ButtonIsPlayed(ClearTable(t, order));
    PostBlinds(MoveButton(ClearTable(t, order)), small, big)
  }

  /** The money on table `h`, seat by seat, when the blinds have been posted on table `t`. */
  predicate Opening(t: Table, h: Table, sb: nat, bb: nat, small: int, big: int) {
    && |h.seats| == |t.seats| && sb < |t.seats| && bb < |t.seats| && sb != bb
    && t.seats[sb].chips > 0 && t.seats[bb].chips > 0
    && h.phase == Preflop && h.lastRaiser == Some(bb) && !h.raised && !h.complete
    && h.currentBet == Posted(t.seats[bb].chips, big)
    && h.seats[bb].bet == Posted(t.seats[bb].chips, big)
    && h.seats[sb].bet == Posted(t.seats[sb].chips, small)
    && (forall i :: 0 <= i < |t.seats| ==> OpeningSeat(t.seats[i], h.seats[i], i == sb || i == bb))
  }

  predicate OpeningSeat(s: Seat, h: Seat, blind: bool) {
    && h.bet + h.chips == s.chips
    && (!blind ==> h.bet == 0)
    && h.status == if s.chips == 0 then Busted else if h.chips == 0 then AllIn else Active
  }

  lemma BlindedOpening(t: Table, order: seq<Card>, small: int, big: int)
    requires Placed(t) && NoDebts(t.seats) && 0 < small && 0 < big && |NonBusted(ResetSeats(t.seats))| >= 2
    ensures Opening(t, Blinded(t, order, small, big), HandBlinds(t).0, HandBlinds(t).1, small, big)
  {
    hide SeatsIn, IndexOf, NextDealer;
    var t0 := ClearTable(t, order);
    var t1 := MoveButton(t0);
    ButtonIsPlayed(t0);
    BlindSeatsArePlayers(t1);
    var (sb, bb) := BlindSeats(NonBusted(t1.seats), t1.dealer);
    assert t1.dealer == NextDealer(ResetSeats(t.seats), t.dealer);
    var t2 := PostSmallBlind(t1, sb, small);
    var t3 := PostBigBlind(t2, bb, big);
    forall i | 0 <= i < |t.seats| ensures OpeningSeat(t.seats[i], t3.seats[i], i == sb || i == bb) {
      assert t1.seats[i] == ResetSeat(t.seats[i]).(isDealer := i == t1.dealer);
    }
  }

  lemma OpeningDealt(t: Table, order: seq<Card>, small: int, big: int)
    requires Placed(t) && |t.seats| <= 10 && |order| == 52 && |NonBusted(ResetSeats(t.seats))| >= 2
    ensures var b, h := Blinded(t, order, small, big), StartHand(t, order, small, big);
            SameMoney(b.seats, h.seats) && h == SetFirstActor(DealHole(b))
  {
    DealHoleKeepsMoney(Blinded(t, order, small, big));
  }

  /** Nobody has folded yet: the players in the hand are those who are not busted. */
  lemma EverybodyPlays(t: Table, h: Table, sb: nat, bb: nat, small: int, big: int)
    requires Opening(t, h, sb, bb, small, big) && NoDebts(t.seats)
    ensures SeatsIn(h.seats, {Active, AllIn}) == NonBusted(h.seats) == NonBusted(ResetSeats(t.seats))
  {
    var r := ResetSeats(t.seats);
    forall i | 0 <= i < |t.seats|
      ensures (h.seats[i].status in {Active, AllIn} <==> r[i].status in {Active, Folded, AllIn})
           && (h.seats[i].status in {Active, AllIn} <==> h.seats[i].status in {Active, Folded, AllIn})
    {
      assert OpeningSeat(t.seats[i], h.seats[i], i == sb || i == bb);
    }
    SameListsByMembers(h.seats, {Active, AllIn}, r, {Active, Folded, AllIn});
    SameListsByMembers(h.seats, {Active, AllIn}, h.seats, {Active, Folded, AllIn});
  }

  lemma OpeningWithoutCards(t: Table, b: Table, h: Table, sb: nat, bb: nat, small: int, big: int)
    requires Opening(t, b, sb, bb, small, big) && SameMoney(b.seats, h.seats)
    requires h == b.(seats := h.seats, deck := h.deck, cur := h.cur)
    ensures Opening(t, h, sb, bb, small, big)
  {
    forall i | 0 <= i < |t.seats| ensures OpeningSeat(t.seats[i], h.seats[i], i == sb || i == bb) {
      assert OpeningSeat(t.seats[i], b.seats[i], i == sb || i == bb);
    }
  }

  /** The money at the start of a hand, seat by seat, and who may act. */
  lemma StartHandOpening(t: Table, order: seq<Card>, small: int, big: int)
    requires Placed(t) && |t.seats| <= 10 && |order| == 52 && NoDebts(t.seats) && 0 < small && 0 < big
    requires |NonBusted(ResetSeats(t.seats))| >= 2
    ensures Opening(t, StartHand(t, order, small, big), HandBlinds(t).0, HandBlinds(t).1, small, big)
    ensures SeatsIn(StartHand(t, order, small, big).seats, {Active, AllIn}) == NonBusted(ResetSeats(t.seats))
  {
    hide StartHand, Blinded, HandBlinds, Opening, SeatsIn, IndexOf;
    var b, h := Blinded(t, order, small, big), StartHand(t, order, small, big);
    var (sb, bb) := HandBlinds(t);
    BlindedOpening(t, order, small, big);
    OpeningDealt(t, order, small, big);
    var d := DealHole(b);
    OpeningWithoutCards(t, b, d, sb, bb, small, big);
    EverybodyPlays(t, d, sb, bb, small, big);
    assert h == b.(seats := h.seats, deck := h.deck, cur := h.cur);
    OpeningWithoutCards(t, b, h, sb, bb, small, big);
  }

  /** At the start of a hand it is the largest bet exactly if the big blind posts no less than the small one. */
  lemma OpeningTopBet(t: Table, order: seq<Card>, small: int, big: int)
    requires Placed(t) && |t.seats| <= 10 && |order| == 52 && NoDebts(t.seats) && 0 < small && 0 < big
    requires |NonBusted(ResetSeats(t.seats))| >= 2
    ensures TopBet(StartHand(t, order, small, big))
       <==> Posted(t.seats[HandBlinds(t).0].chips, small) <= Posted(t.seats[HandBlinds(t).1].chips, big)
  {
    hide StartHand, HandBlinds;
    StartHandOpening(t, order, small, big);
    OpeningTop(t, StartHand(t, order, small, big), HandBlinds(t).0, HandBlinds(t).1, small, big);
  }

  lemma OpeningTop(t: Table, h: Table, sb: nat, bb: nat, small: int, big: int)
    requires Opening(t, h, sb, bb, small, big) && 0 < small && 0 < big && NoDebts(t.seats)
    ensures TopBet(h) <==> Posted(t.seats[sb].chips, small) <= Posted(t.seats[bb].chips, big)
  {
    forall i | 0 <= i < |t.seats| ensures i == sb || i == bb || h.seats[i].bet == 0 {
      assert OpeningSeat(t.seats[i], h.seats[i], i == sb || i == bb);
    }
  }
}
