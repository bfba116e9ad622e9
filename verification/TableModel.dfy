/**
 * The table as a value, and every operation of the game as a function on it (poker/game.py, poker/player_models.py).
 * The class in PokerGame.dfy works in place; its methods are proved to do what these functions say.
 */
module TableModel {
  import opened Prelude
  import opened Cards

  datatype Status = Active | Folded | AllIn | Busted

  datatype Phase = Preflop | Flop | Turn | River | Showdown | Finished

  datatype Seat = Seat(chips: int, bet: int, total: int, status: Status,
                       isDealer: bool, isSmallBlind: bool, isBigBlind: bool, hole: seq<Card>)

  datatype Table = Table(seats: seq<Seat>, dealer: nat, cur: nat, phase: Phase, pot: int, currentBet: int,
                         complete: bool, lastRaiser: Option<nat>, raised: bool, board: seq<Card>, deck: seq<Card>)

  /** What a player asks for; `Unknown` is any other word. */
  datatype Action = Fold | Check | Call | Raise | GoAllIn | Unknown

  datatype Decision = Decision(action: Action, amount: int)

  /** Every index the table stores is a seat. */
  predicate Placed(t: Table) {
    t.dealer < |t.seats| && t.cur < |t.seats| && (t.lastRaiser.Some? ==> t.lastRaiser.value < |t.seats|)
  }

  // ---------------------------------------------------------------- seats by status

  function Holding(seats: seq<Seat>, sts: set<Status>): set<nat> {
    set i: nat | i < |seats| && seats[i].status in sts
  }

  lemma OneMoreHolding(seats: seq<Seat>, sts: set<Status>)
    requires seats != []
    ensures |Holding(seats, sts)|
         == |Holding(seats[..|seats| - 1], sts)| + if seats[|seats| - 1].status in sts then 1 else 0
  {
    var n := |seats| - 1;
    if seats[n].status in sts {
      assert Holding(seats, sts) == Holding(seats[..n], sts) + {n};
    } else {
      assert Holding(seats, sts) == Holding(seats[..n], sts);
    }
  }

  /** A comprehension over the players whose status is one of `sts`: their indices, rising. */
  function SeatsIn(seats: seq<Seat>, sts: set<Status>): (r: seq<nat>)
    ensures Ascending(r)
    ensures forall i: nat :: i in r <==> i < |seats| && seats[i].status in sts
    ensures |r| == |Holding(seats, sts)|
  {
    if seats == [] then []
    else
      var n := |seats| - 1;
      var r := SeatsIn(seats[..n], sts);
      assert forall k :: 0 <= k < |r| ==> r[k] in r;
      OneMoreHolding(seats, sts);
      if seats[n].status in sts then r + [n] else r
  }

  function NonBusted(seats: seq<Seat>): (r: seq<nat>) {
    SeatsIn(seats, {Active, Folded, AllIn})
  }

  /** The first ACTIVE seat among those `i` to `last` places after `from`. */
  function Scan(seats: seq<Seat>, from: nat, i: nat, last: nat): (r: Option<nat>)
    requires from < |seats| && 1 <= i <= last + 1 <= |seats| + 1
    ensures r.Some? ==> r.value < |seats| && seats[r.value].status == Active
                        && i <= Dist(|seats|, from, r.value) <= last
    ensures r.Some? ==> forall z: nat :: z < |seats| && seats[z].status == Active && i <= Dist(|seats|, from, z)
                                  ==> Dist(|seats|, from, r.value) <= Dist(|seats|, from, z)
    ensures r.None? ==> forall z: nat :: z < |seats| && seats[z].status == Active && i <= Dist(|seats|, from, z)
                                  ==> Dist(|seats|, from, z) > last
    decreases last + 1 - i
  {
    if i > last then None
    else if seats[Wrap(from + i, |seats|)].status == Active then Some(Wrap(from + i, |seats|))
    else Scan(seats, from, i + 1, last)
  }

  lemma ScanStep(seats: seq<Seat>, from: nat, i: nat, last: nat)
    requires from < |seats| && 1 <= i <= last <= |seats|
    ensures Scan(seats, from, i, last)
         == if seats[Wrap(from + i, |seats|)].status == Active then Some(Wrap(from + i, |seats|))
            else Scan(seats, from, i + 1, last)
  {
  }

  lemma ScanEnd(seats: seq<Seat>, from: nat, last: nat)
    requires from < |seats| && last <= |seats|
    ensures Scan(seats, from, last + 1, last) == None
  {
  }

  // ---------------------------------------------------------------- one player

  /** `Player.bet`: a bet beyond the stack is an all-in. */
  function BetSeat(s: Seat, amount: int): Seat {
    if amount <= 0 then s
    else
      var paid := Min(amount, s.chips);
      s.(chips := s.chips - paid, bet := s.bet + paid, total := s.total + paid,
         status := if s.chips - paid == 0 then AllIn else s.status)
  }

  /** What `Player.bet` returns. */
  function BetPaid(s: Seat, amount: int): int {
    if amount <= 0 then 0 else Min(amount, s.chips)
  }

  // ---------------------------------------------------------------- process_player_action

  /** The action passes the tests made before anything is changed. */
  predicate Accepts(t: Table, id: int, action: Action, amount: int)
    requires Placed(t)
  {
    var s := t.seats[t.cur];
    && id == t.cur
    && s.status == Active
    && match action {
         case Fold => true
         case Check => t.currentBet <= s.bet
         case Call => t.currentBet - s.bet <= 0 || s.chips >= t.currentBet - s.bet
         case Raise => s.chips >= t.currentBet - s.bet + amount
         case GoAllIn => s.chips > 0
         case Unknown => false
       }
  }

  /** The current player's seat after the action. */
  function ActingSeat(t: Table, action: Action, amount: int): Seat
    requires Placed(t)
  {
    var s := t.seats[t.cur];
    match action
    case Fold => s.(status := Folded)
    case Call => BetSeat(s, t.currentBet - s.bet)
    case Raise => BetSeat(s, t.currentBet - s.bet + amount)
    case GoAllIn => BetSeat(s, s.chips).(status := AllIn)
    case _ => s
  }

  /** The table after the current player's action, before the turn moves on. */
  function TakeAction(t: Table, action: Action, amount: int): (r: Table)
    requires Placed(t)
    ensures Placed(r) && |r.seats| == |t.seats| && r.cur == t.cur
  {
    var s := ActingSeat(t, action, amount);
    var aggressive := action == Raise || (action == GoAllIn && s.bet > t.currentBet);
    t.(seats := t.seats[t.cur := s],
       pot := t.pot + (s.total - t.seats[t.cur].total),
       currentBet := if aggressive then s.bet else t.currentBet,
       lastRaiser := if aggressive then Some(t.cur) else t.lastRaiser,
       raised := t.raised || aggressive)
  }

  /** `_advance_to_next_player`. */
  function Advance(t: Table): (r: Table)
    requires Placed(t)
    ensures Placed(r) && r.seats == t.seats
  {
    match Scan(t.seats, t.cur, 1, |t.seats|)
    case Some(next) => t.(cur := next)
    case None => t.(complete := true)
  }

  function BigBlindSeat(seats: seq<Seat>): (r: Option<nat>)
    ensures r.Some? ==> r.value < |seats| && seats[r.value].isBigBlind
                        && forall j :: 0 <= j < r.value ==> !seats[j].isBigBlind
    ensures r.None? ==> forall j :: 0 <= j < |seats| ==> !seats[j].isBigBlind
  {
    if seats == [] then None
    else
      match BigBlindSeat(seats[..|seats| - 1])
      case Some(i) => Some(i)
      case None => if seats[|seats| - 1].isBigBlind then Some(|seats| - 1) else None
  }

  function FirstIn(ids: seq<nat>): Option<nat> {
    if ids != [] then Some(ids[0]) else None
  }

  /** `_get_first_actor_for_phase`. */
  function FirstActor(t: Table): (r: Option<nat>)
    requires Placed(t)
    ensures r.Some? ==> r.value < |t.seats| && t.seats[r.value].status == Active
  {
    var anchor := if t.phase == Preflop then BigBlindSeat(t.seats) else Some(t.dealer);
    var found := if anchor.Some? then Scan(t.seats, anchor.value, 1, |t.seats| - 1) else None;
    var active := SeatsIn(t.seats, {Active});
    assert active != [] ==> active[0] in active;
    if found.Some? then found else FirstIn(active)
  }

  /** The two searches behind `FirstActor`. */
  lemma FirstActorSearch(t: Table, anchor: Option<nat>)
    requires Placed(t) && anchor == if t.phase == Preflop then BigBlindSeat(t.seats) else Some(t.dealer)
    ensures anchor.Some? ==> anchor.value < |t.seats|
    ensures var found := if anchor.Some? then Scan(t.seats, anchor.value, 1, |t.seats| - 1) else None;
            FirstActor(t) == if found.Some? then found else FirstIn(SeatsIn(t.seats, {Active}))
  {
  }

  /** `_get_next_active_player_from`. */
  function NextActiveFrom(t: Table, from: nat): (r: Option<nat>)
    requires Placed(t) && from < |t.seats|
    ensures r.Some? ==> r.value < |t.seats| && t.seats[r.value].status == Active
  {
    Scan(t.seats, from, 1, |t.seats| - 1)
  }

  predicate AllMatched(t: Table) {
    forall i :: 0 <= i < |t.seats| && t.seats[i].status == Active ==> t.seats[i].bet == t.currentBet
  }

  /** The eight exits of `_check_betting_round_complete`. */
  predicate RoundCloses(t: Table)
    requires Placed(t)
  {
    var active, allIn := SeatsIn(t.seats, {Active}), SeatsIn(t.seats, {AllIn});
    if |active| + |allIn| <= 1 then true
    else if |active| == 0 then true
    else if |active| == 1 then
      assert active[0] in active;
      t.seats[active[0]].bet >= t.currentBet
    else if !AllMatched(t) then false
    else if t.lastRaiser.Some? && t.raised then true
    else if t.lastRaiser.None? then FirstActor(t) == Some(t.cur)
    else if t.lastRaiser.value !in active then true
    else NextActiveFrom(t, t.lastRaiser.value) == Some(t.cur)
  }

  function CheckComplete(t: Table): (r: Table)
    requires Placed(t)
    ensures Placed(r)
  {
    t.(complete := t.complete || RoundCloses(t))
  }

  /** `process_player_action`: a refused action changes nothing. */
  function Step(t: Table, id: int, action: Action, amount: int): (r: Table)
    requires Placed(t)
    ensures Placed(r)
  {
    if Accepts(t, id, action, amount) then CheckComplete(Advance(TakeAction(t, action, amount))) else t
  }

  // ---------------------------------------------------------------- phases

  function ResetBets(seats: seq<Seat>): (r: seq<Seat>)
    ensures |r| == |seats| && forall i :: 0 <= i < |r| ==> r[i] == seats[i].(bet := 0)
  {
    seq(|seats|, i requires 0 <= i < |seats| => seats[i].(bet := 0))
  }

  /** Nobody has bet yet; the flag for a raise is left as it is. */
  function RoundCleared(t: Table): (r: Table)
    requires Placed(t)
    ensures Placed(r)
  {
    t.(seats := ResetBets(t.seats), currentBet := 0, complete := false, lastRaiser := None)
  }

  function FirstActorSeated(t: Table): (r: Table)
    requires Placed(t)
    ensures Placed(r)
  {
    match FirstActor(t)
    case Some(i) => t.(cur := i)
    case None => t.(complete := true)
  }

  /** `_start_new_betting_round`. */
  function StartRound(t: Table): (r: Table)
    requires Placed(t)
    ensures Placed(r)
  {
    FirstActorSeated(RoundCleared(t))
  }

  function TurnedUp(t: Table): Table
    requires |t.deck| > 0
  {
    t.(board := t.board + [t.deck[|t.deck| - 1]], deck := t.deck[..|t.deck| - 1])
  }

  /** Burns one card and turns up `k`, each taken from the end of the deck. */
  function DealBoard(t: Table, k: nat): Table
    requires |t.deck| >= k + 1
  {
    DealCards(t.(deck := t.deck[..|t.deck| - 1]), k)
  }

  function DealCards(t: Table, k: nat): Table
    requires |t.deck| >= k
    decreases k
  {
    if k == 0 then t
    else DealCards(TurnedUp(t), k - 1)
  }

  function CardsOfPhase(p: Phase): nat {
    match p case Preflop => 3 case Flop => 1 case Turn => 1 case _ => 0
  }

  function NextPhase(p: Phase): Phase {
    match p case Preflop => Flop case Flop => Turn case Turn => River case _ => Showdown
  }

  /** Players who have neither folded nor busted. */
  function Remaining(seats: seq<Seat>): set<nat> {
    Holding(seats, {Active, AllIn})
  }

  predicate AdvanceAllowed(t: Table) {
    t.complete && (|Remaining(t.seats)| <= 1 || (t.phase != Showdown && t.phase != Finished))
  }

  /** If asking for the next phase deals a street, the deck has the cards for it and one to burn. */
  predicate EnoughCards(t: Table) {
    t.complete && |Remaining(t.seats)| > 1 && t.phase in {Preflop, Flop, Turn} ==> |t.deck| >= CardsOfPhase(t.phase) + 1
  }

  /** `advance_to_next_phase`. */
  function AdvancePhase(t: Table): (r: Table)
    requires Placed(t) && EnoughCards(t)
    ensures Placed(r)
  {
    if !t.complete then t
    else if |Remaining(t.seats)| <= 1 then t.(phase := Showdown)
    else if t.phase == River then t.(phase := Showdown)
    else if t.phase == Showdown || t.phase == Finished then t
    else
      DealKeeps(t.(phase := NextPhase(t.phase)), CardsOfPhase(t.phase));
      StartRound(DealBoard(t.(phase := NextPhase(t.phase)), CardsOfPhase(t.phase)))
  }

  lemma DealKeeps(t: Table, k: nat)
    requires |t.deck| >= k + 1
    ensures DealBoard(t, k) == t.(board := DealBoard(t, k).board, deck := DealBoard(t, k).deck)
  {
    DealCardsKeeps(t.(deck := t.deck[..|t.deck| - 1]), k);
  }

  lemma {:induction false} DealCardsKeeps(t: Table, k: nat)
    requires |t.deck| >= k
    ensures DealCards(t, k) == t.(board := DealCards(t, k).board, deck := DealCards(t, k).deck)
    ensures |DealCards(t, k).deck| == |t.deck| - k && |DealCards(t, k).board| == |t.board| + k
    ensures multiset(DealCards(t, k).board) + multiset(DealCards(t, k).deck) == multiset(t.board) + multiset(t.deck)
    decreases k
  {
    if k > 0 {
      var t1 := TurnedUp(t);
      DealCardsKeeps(t1, k - 1);
      assert t.deck == t1.deck + [t.deck[|t.deck| - 1]];
    }
  }

  // ---------------------------------------------------------------- start_new_hand

  /** `Player.reset_for_new_hand`. */
  function ResetSeat(s: Seat): Seat {
    Seat(s.chips, 0, 0, if s.chips > 0 then Active else Busted, false, false, false, [])
  }

  function ResetSeats(seats: seq<Seat>): (r: seq<Seat>)
    ensures |r| == |seats| && forall i :: 0 <= i < |r| ==> r[i] == ResetSeat(seats[i])
  {
    seq(|seats|, i requires 0 <= i < |seats| => ResetSeat(seats[i]))
  }

  /** Where the button goes: to the next player who is not busted. */
  function NextDealer(seats: seq<Seat>, dealer: nat): (d: nat)
    requires dealer < |seats|
    ensures d < |seats|
    ensures NonBusted(seats) != [] ==> d in NonBusted(seats)
  {
    var players := NonBusted(seats);
    assert forall k :: 0 <= k < |players| ==> players[k] in players;
    if players == [] then dealer
    else if dealer !in players then players[0]
    else players[(IndexOf(players, dealer) + 1) % |players|]
  }

  function FlagDealer(seats: seq<Seat>, dealer: nat): (r: seq<Seat>)
    ensures |r| == |seats| && forall i :: 0 <= i < |r| ==> r[i] == seats[i].(isDealer := i == dealer)
  {
    seq(|seats|, i requires 0 <= i < |seats| => seats[i].(isDealer := i == dealer))
  }

  /** `_move_dealer_button`. */
  function MoveButton(t: Table): (r: Table)
    requires Placed(t)
    ensures Placed(r)
  {
    if NonBusted(t.seats) == [] then t
    else
      var d := NextDealer(t.seats, t.dealer);
      t.(dealer := d, seats := FlagDealer(t.seats, d))
  }

  /** Small and big blind: heads-up the dealer has the small one, otherwise the two players after the dealer. */
  function BlindSeats(players: seq<nat>, dealer: nat): (nat, nat)
    requires |players| >= 2 && dealer in players
  {
    var p := IndexOf(players, dealer);
    if |players| == 2 then (dealer, players[1 - p])
    else (players[(p + 1) % |players|], players[(p + 2) % |players|])
  }

  predicate HasDealer(t: Table) {
    |NonBusted(t.seats)| >= 2 && t.dealer in NonBusted(t.seats)
  }

  lemma BlindSeatsArePlayers(t: Table)
    requires HasDealer(t)
    ensures var (sb, bb) := BlindSeats(NonBusted(t.seats), t.dealer);
            sb != bb && sb < |t.seats| && bb < |t.seats| && t.seats[sb].status != Busted && t.seats[bb].status != Busted
  {
    var players := NonBusted(t.seats);
    var m, p := |players|, IndexOf(NonBusted(t.seats), t.dealer);
    WrapIsModulo(p + 1, m);
    WrapIsModulo(p + 2, m);
    var (sb, bb) := BlindSeats(players, t.dealer);
    assert sb in players && bb in players;
  }

  function PostSmallBlind(t: Table, pos: nat, amount: int): Table
    requires pos < |t.seats|
  {
    var s := t.seats[pos].(isSmallBlind := true);
    t.(seats := t.seats[pos := BetSeat(s, amount)], pot := t.pot + BetPaid(s, amount))
  }

  function PostBigBlind(t: Table, pos: nat, amount: int): Table
    requires pos < |t.seats|
  {
    var s := t.seats[pos].(isBigBlind := true);
    t.(seats := t.seats[pos := BetSeat(s, amount)], pot := t.pot + BetPaid(s, amount),
       currentBet := BetPaid(s, amount), lastRaiser := Some(pos))
  }

  /** `_post_blinds`. */
  function PostBlinds(t: Table, small: int, big: int): (r: Table)
    requires Placed(t) && (|NonBusted(t.seats)| >= 2 ==> HasDealer(t))
    ensures Placed(r) && |r.seats| == |t.seats|
  {
    if |NonBusted(t.seats)| < 2 then t
    else
      BlindSeatsArePlayers(t);
      var (sb, bb) := BlindSeats(NonBusted(t.seats), t.dealer);
      PostBigBlind(PostSmallBlind(t, sb, small), bb, big)
  }

  function CardGiven(t: Table, index: nat): (r: Table)
    requires index < |t.seats| && |t.deck| > 0
    ensures |r.seats| == |t.seats| && |r.deck| == |t.deck| - 1
  {
    t.(seats := t.seats[index := t.seats[index].(hole := t.seats[index].hole + [t.deck[|t.deck| - 1]])],
       deck := t.deck[..|t.deck| - 1])
  }

  /** One card to every player who is not busted, from seat `i` on. */
  function DealRound(t: Table, i: nat): (r: Table)
    requires i <= |t.seats| && |t.deck| >= |t.seats| - i
    ensures |r.seats| == |t.seats| && r == t.(seats := r.seats, deck := r.deck)
    ensures |t.deck| - (|t.seats| - i) <= |r.deck| <= |t.deck|
    decreases |t.seats| - i
  {
    if i == |t.seats| then t
    else if t.seats[i].status == Busted then DealRound(t, i + 1)
    else DealRound(CardGiven(t, i), i + 1)
  }

  /** `_deal_hole_cards`. */
  function DealHole(t: Table): (r: Table)
    requires |t.deck| >= 2 * |t.seats|
    ensures |r.seats| == |t.seats| && r == t.(seats := r.seats, deck := r.deck)
    ensures |r.deck| >= |t.deck| - 2 * |t.seats|
  {
    DealRound(DealRound(t, 0), 0)
  }

  /** `_set_first_actor_preflop`. */
  function SetFirstActor(t: Table): (r: Table)
    requires Placed(t)
    ensures Placed(r) && r.seats == t.seats
  {
    var players := SeatsIn(t.seats, {Active, AllIn});
    assert forall k :: 0 <= k < |players| ==> players[k] in players;
    if |players| < 2 then t.(complete := true)
    else if t.dealer !in players then t.(cur := players[0])
    else if |players| == 2 then t.(cur := t.dealer)
    else t.(cur := players[(IndexOf(players, t.dealer) + 3) % |players|])
  }

  /** The table cleared for a new hand, with a freshly shuffled deck. */
  function ClearTable(t: Table, order: seq<Card>): (r: Table)
    requires Placed(t)
    ensures Placed(r)
  {
    t.(seats := ResetSeats(t.seats), deck := order, board := [], phase := Preflop, pot := 0, currentBet := 0,
       complete := false, lastRaiser := None, raised := false)
  }

  /** `start_new_hand`; `order` is the outcome of the shuffle. */
  function StartHand(t: Table, order: seq<Card>, small: int, big: int): (r: Table)
    requires Placed(t) && |t.seats| <= 10 && |order| == 52
    ensures Placed(r) && |r.seats| == |t.seats|
  {
    var t0 := ClearTable(t, order);
    if |NonBusted(t0.seats)| < 2 then t0.(phase := Finished)
    else
      var t1 := MoveButton(t0);
      ButtonIsPlayed(t0);
      SetFirstActor(DealHole(PostBlinds(t1, small, big)))
  }

  lemma ButtonIsPlayed(t: Table)
    requires Placed(t) && |NonBusted(t.seats)| >= 2
    ensures HasDealer(MoveButton(t)) && NonBusted(MoveButton(t).seats) == NonBusted(t.seats)
  {
    SameListsByMembers(t.seats, {Active, Folded, AllIn}, MoveButton(t).seats, {Active, Folded, AllIn});
  }

  lemma {:induction false} SameListsByMembers(a: seq<Seat>, x: set<Status>, b: seq<Seat>, y: set<Status>)
    requires |a| == |b| && forall i :: 0 <= i < |a| ==> (a[i].status in x <==> b[i].status in y)
    ensures SeatsIn(a, x) == SeatsIn(b, y)
  {
    if a != [] { SameListsByMembers(a[..|a| - 1], x, b[..|b| - 1], y); }
  }
}
