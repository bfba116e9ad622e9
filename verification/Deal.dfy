/** Which seat deals, which seats post, and which cards go where (poker/game.py:252-363, 874-917). */
module Deal {
  import opened Prelude
  import opened Cards
  import opened TableModel
  import opened Bookkeeping
  import opened CardsInPlay
  import opened Settlement
  import opened Rounds
  import opened Offers

  // ---------------------------------------------------------------- button and blinds

  /** `y` is the first seat with chips after `x`, which comes last itself. */
  predicate NextWithChips(t: Table, x: nat, y: nat) {
    && x < |t.seats| && y < |t.seats| && t.seats[y].chips > 0
    && forall z: nat :: z < |t.seats| && t.seats[z].chips > 0 ==> Dist(|t.seats|, x, y) <= Dist(|t.seats|, x, z)
  }

  lemma PlayersHaveChips(t: Table)
    requires NoDebts(t.seats)
    ensures forall z: nat :: z in NonBusted(ResetSeats(t.seats)) <==> z < |t.seats| && t.seats[z].chips > 0
  {
  }

  /** The button moves to the next player with chips; if the dealer is out of chips, to the first seat that has any. */
  lemma DealerMoves(t: Table, order: seq<Card>, small: int, big: int)
    requires Placed(t) && |t.seats| <= 10 && |order| == 52 && NoDebts(t.seats)
    requires |NonBusted(ResetSeats(t.seats))| >= 2
    ensures var d := StartHand(t, order, small, big).dealer;
            && d < |t.seats| && t.seats[d].chips > 0
            && if t.seats[t.dealer].chips > 0 then NextWithChips(t, t.dealer, d)
               else forall z: nat :: z < d ==> t.seats[z].chips == 0
  {
    hide SeatsIn, IndexOf, NextWithChips, StartHand, DealHole;
    var players := NonBusted(ResetSeats(t.seats));
    PlayersHaveChips(t);
    BlindedDealer(t, order, small, big);
    OpeningDealt(t, order, small, big);
    var d := NextDealer(ResetSeats(t.seats), t.dealer);
    assert StartHand(t, order, small, big).dealer == d;
    if t.dealer in players {
      NextIsWithChips(t, players, t.dealer);
    } else {
      forall z: nat | z < d ensures z !in players {
        if z in players { FirstIsSmallest(players, z); }
      }
    }
  }

  lemma PlayersUnder(players: seq<nat>, n: nat)
    requires forall z :: z in players ==> z < n
    ensures Under(players, n)
  {
    forall k | 0 <= k < |players| ensures players[k] < n { assert players[k] in players; }
  }

  lemma FirstIsSmallest(players: seq<nat>, z: nat)
    requires Ascending(players) && z in players
    ensures players[0] <= z
  {
  }

  lemma NextPlayerIsNearest(players: seq<nat>, n: nat, x: nat, y: nat)
    requires Ascending(players) && Under(players, n) && x in players
    requires y == players[(IndexOf(players, x) + 1) % |players|]
    ensures x < n && y < n && y in players && forall z :: z in players ==> z < n && Dist(n, x, y) <= Dist(n, x, z)
  {
    hide Dist, IndexOf;
    var p, m := IndexOf(players, x), |players|;
    WrapIsModulo(p + 1, m);
    assert y == players[Wrap(p + 1, m)];
    forall z | z in players ensures z < n && Dist(n, x, y) <= Dist(n, x, z) {
      var k :| 0 <= k < m && players[k] == z;
      NextInListIsNearest(players, n, p, k);
    }
  }

  lemma NextIsWithChips(t: Table, players: seq<nat>, x: nat)
    requires Ascending(players) && x in players
    requires forall z: nat :: z in players <==> z < |t.seats| && t.seats[z].chips > 0
    ensures NextWithChips(t, x, players[(IndexOf(players, x) + 1) % |players|])
  {
    hide Dist, IndexOf;
    PlayersUnder(players, |t.seats|);
    NextPlayerIsNearest(players, |t.seats|, x, players[(IndexOf(players, x) + 1) % |players|]);
  }

  /** The blinds are the next two players with chips after the dealer; heads-up the dealer has the small one. */
  lemma BlindsFollowDealer(t: Table, order: seq<Card>, small: int, big: int)
    requires Placed(t) && |t.seats| <= 10 && |order| == 52 && NoDebts(t.seats)
    requires |NonBusted(ResetSeats(t.seats))| >= 2
    ensures var d, (sb, bb) := StartHand(t, order, small, big).dealer, HandBlinds(t);
            && (if |NonBusted(ResetSeats(t.seats))| == 2 then sb == d else NextWithChips(t, d, sb))
            && NextWithChips(t, sb, bb)
  {
    hide SeatsIn, StartHand, DealHole, IndexOf, NextWithChips, NextDealer, BlindSeats, Blinded;
    var players := NonBusted(ResetSeats(t.seats));
    PlayersHaveChips(t);
    BlindedDealer(t, order, small, big);
    OpeningDealt(t, order, small, big);
    var d := NextDealer(ResetSeats(t.seats), t.dealer);
    assert StartHand(t, order, small, big).dealer == d;
    SecondAfterDealer(players, d);
    NextIsWithChips(t, players, d);
    NextIsWithChips(t, players, HandBlinds(t).0);
  }

  lemma SecondAfterDealer(players: seq<nat>, d: nat)
    requires Ascending(players) && |players| >= 2 && d in players
    ensures var (sb, bb) := BlindSeats(players, d);
            && sb in players && bb == players[(IndexOf(players, sb) + 1) % |players|]
            && (if |players| == 2 then sb == d else sb == players[(IndexOf(players, d) + 1) % |players|] && sb != d)
  {
    hide IndexOf;
    var p, m := IndexOf(players, d), |players|;
    WrapIsModulo(p + 1, m);
    WrapIsModulo(p + 2, m);
    if m > 2 {
      var q := Wrap(p + 1, m);
      assert players[q] in players;
      PositionIsUnique(players, q);
      WrapIsModulo(q + 1, m);
    }
  }

  lemma PositionIsUnique(players: seq<nat>, q: nat)
    requires Ascending(players) && q < |players|
    ensures IndexOf(players, players[q]) == q
  {
  }

  // ---------------------------------------------------------------- the flags

  /** Exactly these seats carry the three marks. */
  predicate Marked(seats: seq<Seat>, dealer: nat, sb: nat, bb: nat) {
    forall i :: 0 <= i < |seats| ==>
      (seats[i].isDealer <==> i == dealer) && (seats[i].isSmallBlind <==> i == sb) && (seats[i].isBigBlind <==> i == bb)
  }

  predicate SameMarks(a: seq<Seat>, b: seq<Seat>) {
    |a| == |b| && forall i :: 0 <= i < |a| ==>
      a[i].isDealer == b[i].isDealer && a[i].isSmallBlind == b[i].isSmallBlind && a[i].isBigBlind == b[i].isBigBlind
  }

  lemma {:induction false} DealRoundKeepsMarks(t: Table, i: nat)
    requires i <= |t.seats| && |t.deck| >= |t.seats| - i
    ensures SameMarks(t.seats, DealRound(t, i).seats)
    decreases |t.seats| - i
  {
    if i < |t.seats| {
      if t.seats[i].status == Busted {
        DealRoundKeepsMarks(t, i + 1);
      } else {
        DealRoundKeepsMarks(CardGiven(t, i), i + 1);
      }
    }
  }

  lemma BlindedMarks(t: Table, order: seq<Card>, small: int, big: int)
    requires Placed(t) && |NonBusted(ResetSeats(t.seats))| >= 2
    ensures var b := Blinded(t, order, small, big);
            Marked(b.seats, b.dealer, HandBlinds(t).0, HandBlinds(t).1)
  {
    hide SeatsIn, IndexOf, NextDealer, BlindSeats;
    var t0 := ClearTable(t, order);
    var t1 := MoveButton(t0);
    ButtonIsPlayed(t0);
    BlindSeatsArePlayers(t1);
    var (sb, bb) := BlindSeats(NonBusted(t1.seats), t1.dealer);
    assert t1.dealer == NextDealer(ResetSeats(t.seats), t.dealer);
    var t2 := PostSmallBlind(t1, sb, small);
    assert forall i :: 0 <= i < |t.seats| ==> t1.seats[i] == ResetSeat(t.seats[i]).(isDealer := i == t1.dealer);
  }

  /** After the deal the dealer, the small and the big blind are marked, and nobody else. */
  lemma HandIsMarked(t: Table, order: seq<Card>, small: int, big: int)
    requires Placed(t) && |t.seats| <= 10 && |order| == 52 && |NonBusted(ResetSeats(t.seats))| >= 2
    ensures var h := StartHand(t, order, small, big);
            Marked(h.seats, h.dealer, HandBlinds(t).0, HandBlinds(t).1)
  {
    hide Blinded, HandBlinds, StartHand, DealRound;
    var b := Blinded(t, order, small, big);
    BlindedMarks(t, order, small, big);
    OpeningDealt(t, order, small, big);
    DealRoundKeepsMarks(b, 0);
    DealRoundKeepsMarks(DealRound(b, 0), 0);
  }

  /** No request and no change of street moves a mark. */
  lemma {:induction false} RunKeepsMarks(t: Table, events: seq<Event>)
    requires Playable(t)
    ensures SameMarks(t.seats, Exec(t, events).seats)
  {
    hide Playable, CardsSound, Step, AdvancePhase;
    if events != [] {
      var u := Exec(t, events[..|events| - 1]);
      RunKeepsMarks(t, events[..|events| - 1]);
      PlayableMeans(u);
      match events[|events| - 1]
      case Request(id, action, amount) => StepKeepsMarks(u, id, action, amount);
      case NextStreet =>
        AdvancePhaseKeepsCards(u);
        AdvanceKeepsMarks(u);
    }
  }

  lemma StepKeepsMarks(t: Table, id: int, action: Action, amount: int)
    requires Placed(t)
    ensures SameMarks(t.seats, Step(t, id, action, amount).seats)
  {
    hide Scan, RoundCloses;
  }

  lemma AdvanceKeepsMarks(t: Table)
    requires Placed(t) && EnoughCards(t)
    ensures SameMarks(t.seats, AdvancePhase(t).seats)
  {
    hide DealBoard, FirstActor;
    if t.complete && |Remaining(t.seats)| > 1 && t.phase in {Preflop, Flop, Turn} {
      DealKeeps(t.(phase := NextPhase(t.phase)), CardsOfPhase(t.phase));
    }
  }

  /**
   * Whatever happens before the flop, the option to raise a matched bet of one big blind, as long as nobody has raised,
   * is offered to the player who posted the big blind, and to nobody else.
   */
  lemma BigBlindHasTheOption(t: Table, order: seq<Card>, small: int, big: int, events: seq<Event>)
    requires Placed(t) && |t.seats| <= 10 && Shuffled(order) && NoDebts(t.seats) && 0 < small < big
    requires |NonBusted(ResetSeats(t.seats))| >= 2
    ensures Playable(StartHand(t, order, small, big))
    ensures var v := Exec(StartHand(t, order, small, big), events);
            var s := v.seats[v.cur];
            s.status == Active && v.phase == Preflop && !v.raised && v.currentBet == big <= s.bet ==>
              ((exists n :: OfferAllIn(n) in AvailableActions(v, v.cur, big)) <==> v.cur == HandBlinds(t).1)
  {
    hide StartHand, HandBlinds, Playable, AvailableActions, Ledger, CardsSound, Exec;
    var h := StartHand(t, order, small, big);
    AnyRunKeepsTheBooks(t, order, small, big, events);
    HandIsMarked(t, order, small, big);
    RunKeepsMarks(h, events);
    var v := Exec(h, events);
    PlayableMeans(v);
    if v.seats[v.cur].status == Active {
      assert SeatsSound(v.seats) by { LedgerIsSound(v, Sum(Chips(t.seats))); }
      OffersAreComplete(v, big);
    }
  }

  // ---------------------------------------------------------------- streets

  /** The next `k` cards as they come off the top of the deck. */
  function OffTheTop(deck: seq<Card>, k: nat): (cards: seq<Card>)
    requires k <= |deck|
    ensures |cards| == k
  {
    if k == 0 then [] else [deck[|deck| - 1]] + OffTheTop(deck[..|deck| - 1], k - 1)
  }

  lemma {:induction false} CardsTurnedUp(t: Table, k: nat)
    requires |t.deck| >= k
    ensures DealCards(t, k).deck == t.deck[..|t.deck| - k] && DealCards(t, k).board == t.board + OffTheTop(t.deck, k)
    decreases k
  {
    if k > 0 {
      var t1 := TurnedUp(t);
      CardsTurnedUp(t1, k - 1);
      assert t1.deck[..|t1.deck| - (k - 1)] == t.deck[..|t.deck| - k];
    } else {
      assert t.deck[..|t.deck|] == t.deck;
    }
  }

  lemma StreetDealt(t: Table, k: nat)
    requires |t.deck| >= k + 1
    ensures var u, n := DealBoard(t, k), |t.deck|;
            && u == t.(board := u.board, deck := u.deck)
            && u.deck == t.deck[..n - 1 - k] && u.board == t.board + OffTheTop(t.deck[..n - 1], k)
  {
    hide DealCards;
    DealKeeps(t, k);
    CardsTurnedUp(t.(deck := t.deck[..|t.deck| - 1]), k);
    assert t.deck[..|t.deck| - 1][..|t.deck| - 1 - k] == t.deck[..|t.deck| - 1 - k];
  }

  lemma RoundBegins(t: Table)
    requires Placed(t)
    ensures var u := StartRound(t);
            && u == t.(seats := u.seats, currentBet := 0, complete := u.complete, lastRaiser := None, cur := u.cur)
            && |u.seats| == |t.seats| && forall i :: 0 <= i < |t.seats| ==> u.seats[i] == t.seats[i].(bet := 0)
  {
    hide FirstActor;
  }

  /**
   * What asking for the next phase does. Nothing while betting is open; the showdown follows when one player is left or
   * after the river; otherwise the top card is burned and the next three, or the next one, go to the board in the order
   * they come off the deck, and a round without bets begins.
   */
  lemma PhaseMoves(t: Table)
    requires Placed(t) && EnoughCards(t)
    ensures var u, n := AdvancePhase(t), |t.deck|;
            if !t.complete then u == t
            else if |Remaining(t.seats)| <= 1 || t.phase == River then u == t.(phase := Showdown)
            else if t.phase in {Showdown, Finished} then u == t
            else
              var k := if t.phase == Preflop then 3 else 1;
              && u.phase == (if t.phase == Preflop then Flop else if t.phase == Flop then Turn else River)
              && n >= k + 1 && u.deck == t.deck[..n - 1 - k] && u.board == t.board + OffTheTop(t.deck[..n - 1], k)
              && u.currentBet == 0 && u.lastRaiser == None && u.pot == t.pot && u.raised == t.raised
              && |u.seats| == |t.seats| && forall i :: 0 <= i < |t.seats| ==> u.seats[i] == t.seats[i].(bet := 0)
  {
    hide FirstActor, DealBoard, StartRound, OffTheTop;
    if t.complete && |Remaining(t.seats)| > 1 && t.phase in {Preflop, Flop, Turn} {
      var t1 := t.(phase := NextPhase(t.phase));
      var k := CardsOfPhase(t.phase);
      StreetDealt(t1, k);
      RoundBegins(DealBoard(t1, k));
    }
  }

  /** The first `b` cards of the board as they lie in the deck, where one card is burned before each street. */
  function BoardOf(deck: seq<Card>, b: nat): seq<Card>
    requires b in {0, 3, 4, 5} && |deck| >= b + Burned(b)
  {
    var n := |deck|;
    if b == 0 then []
    else if b == 3 then [deck[n - 2], deck[n - 3], deck[n - 4]]
    else if b == 4 then [deck[n - 2], deck[n - 3], deck[n - 4], deck[n - 6]]
    else [deck[n - 2], deck[n - 3], deck[n - 4], deck[n - 6], deck[n - 8]]
  }

  /** The board holds the cards of deck `d` from the top, but for the burned ones; the rest is still in the deck. */
  predicate BoardFrom(t: Table, d: seq<Card>) {
    && |t.board| in {0, 3, 4, 5} && |d| >= |t.board| + Burned(|t.board|)
    && t.deck == d[..|d| - |t.board| - Burned(|t.board|)] && t.board == BoardOf(d, |t.board|)
  }

  lemma OneOff(deck: seq<Card>)
    requires |deck| >= 1
    ensures OffTheTop(deck, 1) == [deck[|deck| - 1]]
  {
    assert OffTheTop(deck[..|deck| - 1], 0) == [];
  }

  lemma ThreeOff(deck: seq<Card>)
    requires |deck| >= 3
    ensures OffTheTop(deck, 3) == [deck[|deck| - 1], deck[|deck| - 2], deck[|deck| - 3]]
  {
    var d1 := deck[..|deck| - 1];
    OneOff(d1[..|d1| - 1]);
    assert OffTheTop(d1, 2) == [d1[|d1| - 1]] + OffTheTop(d1[..|d1| - 1], 1);
  }

  lemma FlopFrom(t: Table, u: Table, d: seq<Card>)
    requires BoardFrom(t, d) && t.board == [] && |t.deck| >= 4
    requires u.deck == t.deck[..|t.deck| - 4] && u.board == OffTheTop(t.deck[..|t.deck| - 1], 3)
    ensures BoardFrom(u, d)
  {
    assert t.deck == d;
    ThreeOff(t.deck[..|t.deck| - 1]);
  }

  lemma CardFrom(t: Table, u: Table, d: seq<Card>)
    requires BoardFrom(t, d) && |t.board| in {3, 4} && |t.deck| >= 2
    requires u.deck == t.deck[..|t.deck| - 2] && u.board == t.board + OffTheTop(t.deck[..|t.deck| - 1], 1)
    ensures BoardFrom(u, d)
  {
    OneOff(t.deck[..|t.deck| - 1]);
    assert u.deck == d[..|d| - |u.board| - Burned(|u.board|)];
  }

  lemma AdvanceKeepsBoardFrom(t: Table, d: seq<Card>)
    requires Placed(t) && EnoughCards(t) && BoardFits(t.phase, |t.board|, |Remaining(t.seats)|) && BoardFrom(t, d)
    ensures BoardFrom(AdvancePhase(t), d)
  {
    hide AdvancePhase, Remaining, OffTheTop, BoardOf;
    PhaseMoves(t);
    if t.complete && |Remaining(t.seats)| > 1 {
      if t.phase == Preflop {
        FlopFrom(t, AdvancePhase(t), d);
      } else if t.phase in {Flop, Turn} {
        CardFrom(t, AdvancePhase(t), d);
      }
    }
  }

  /** Whatever happens in a hand, the board shows the flop, the turn and the river as they lay in the deck. */
  lemma {:induction false} BoardComesFromDeck(t: Table, events: seq<Event>)
    requires Playable(t) && t.board == []
    ensures BoardFrom(Exec(t, events), t.deck)
  {
    hide Playable, CardsSound, Step, AdvancePhase, BoardFrom;
    if events == [] {
      assert BoardFrom(t, t.deck) by { NoBoardYet(t); }
    } else {
      var u := Exec(t, events[..|events| - 1]);
      BoardComesFromDeck(t, events[..|events| - 1]);
      PlayableMeans(u);
      match events[|events| - 1]
      case Request(id, action, amount) => StepKeepsBoardFrom(u, id, action, amount, t.deck);
      case NextStreet =>
        AdvancePhaseKeepsCards(u);
        BoardIsFit(u);
        AdvanceKeepsBoardFrom(u, t.deck);
    }
  }

  lemma NoBoardYet(t: Table)
    requires t.board == []
    ensures BoardFrom(t, t.deck)
  {
  }

  lemma BoardIsFit(t: Table)
    requires Playable(t)
    ensures BoardFits(t.phase, |t.board|, |Remaining(t.seats)|)
  {
  }

  lemma StepKeepsBoardFrom(t: Table, id: int, action: Action, amount: int, d: seq<Card>)
    requires Placed(t) && BoardFrom(t, d)
    ensures BoardFrom(Step(t, id, action, amount), d)
  {
    hide Scan, RoundCloses;
  }

  // ---------------------------------------------------------------- hole cards

  /** How many players who are not busted sit from seat `i` on, before seat `j`. */
  function Between(seats: seq<Seat>, i: nat, j: nat): (n: nat)
    requires i <= j <= |seats|
    ensures n <= j - i
    decreases j - i
  {
    if i == j then 0 else Between(seats, i + 1, j) + if seats[i].status == Busted then 0 else 1
  }

  lemma {:induction false} BetweenSame(a: seq<Seat>, b: seq<Seat>, i: nat, j: nat)
    requires |a| == |b| && i <= j <= |a|
    requires forall x :: i <= x < j ==> (a[x].status == Busted <==> b[x].status == Busted)
    ensures Between(a, i, j) == Between(b, i, j)
    decreases j - i
  {
    if i < j { BetweenSame(a, b, i + 1, j); }
  }

  lemma {:induction false} BetweenMore(seats: seq<Seat>, i: nat, j: nat, k: nat)
    requires i <= j <= k <= |seats|
    ensures Between(seats, i, k) == Between(seats, i, j) + Between(seats, j, k)
    decreases j - i
  {
    if i < j { BetweenMore(seats, i + 1, j, k); }
  }

  lemma CountsItself(seats: seq<Seat>, j: nat)
    requires j < |seats|
    ensures Between(seats, 0, j) + (if seats[j].status == Busted then 0 else 1) <= Between(seats, 0, |seats|)
  {
    BetweenMore(seats, 0, j, |seats|);
  }

  /** What one pass from seat `i` on leaves in the deck and gives to seat `j`. */
  predicate PassResult(t: Table, u: Table, i: nat, j: nat)
    requires i <= |t.seats| && j < |t.seats|
  {
    var n, all := |t.deck|, Between(t.seats, i, |t.seats|);
    && all <= n && u.deck == t.deck[..n - all] && |u.seats| == |t.seats| && u.seats[j].status == t.seats[j].status
    && (j < i || t.seats[j].status == Busted ==> u.seats[j].hole == t.seats[j].hole)
    && (i <= j && t.seats[j].status != Busted ==>
          var k := Between(t.seats, i, j); k < n && u.seats[j].hole == t.seats[j].hole + [t.deck[n - 1 - k]])
  }

  lemma PassGoesOn(t: Table, u: Table, i: nat, j: nat)
    requires i < |t.seats| && j < |t.seats| && t.seats[i].status != Busted && |t.deck| > 0
    requires PassResult(CardGiven(t, i), u, i + 1, j)
    ensures PassResult(t, u, i, j)
  {
    var t1 := CardGiven(t, i);
    BetweenSame(t1.seats, t.seats, i + 1, |t.seats|);
    if i < j { BetweenSame(t1.seats, t.seats, i + 1, j); }
  }

  /** One pass: the players from seat `i` on get the cards of the deck from the top, in seat order. */
  lemma {:induction false} PassGives(t: Table, i: nat, j: nat)
    requires i <= |t.seats| && j < |t.seats| && |t.deck| >= |t.seats| - i
    ensures PassResult(t, DealRound(t, i), i, j)
    decreases |t.seats| - i
  {
    if i < |t.seats| && t.seats[i].status != Busted {
      hide PassResult;
      PassGives(CardGiven(t, i), i + 1, j);
      PassGoesOn(t, DealRound(t, i), i, j);
    } else if i < |t.seats| {
      PassGives(t, i + 1, j);
    }
  }

  /** Two passes: the first card of each player comes from the first pass, the second from the second. */
  lemma HoleCardsOf(t: Table, j: nat)
    requires |t.deck| >= 2 * |t.seats| && j < |t.seats| && t.seats[j].hole == []
    ensures var u, n, m, k := DealHole(t), |t.deck|, Between(t.seats, 0, |t.seats|), Between(t.seats, 0, j);
            && k <= m && 2 * m <= n && u.deck == t.deck[..n - 2 * m]
            && (t.seats[j].status == Busted ==> u.seats[j].hole == [])
            && (t.seats[j].status != Busted ==>
                  k < m && u.seats[j].hole == [t.deck[n - 1 - k], t.deck[n - 1 - m - k]])
  {
    hide DealRound, Between;
    var t1 := DealRound(t, 0);
    PassGives(t, 0, j);
    PassGives(t1, 0, j);
    forall x | 0 <= x < |t.seats| ensures t1.seats[x].status == t.seats[x].status {
      PassGives(t, 0, x);
    }
    BetweenSame(t1.seats, t.seats, 0, |t.seats|);
    BetweenSame(t1.seats, t.seats, 0, j);
    CountsItself(t.seats, j);
    assert t1.deck == t.deck[..|t.deck| - Between(t.seats, 0, |t.seats|)];
  }

  /**
   * The hole cards of a hand, by the order of the shuffled deck: the k-th of m players with chips, in seat order from
   * 0, gets the k-th card from the top and, m cards later, the second one.
   */
  lemma HoleCardsDealt(t: Table, order: seq<Card>, small: int, big: int, j: nat)
    requires Placed(t) && |t.seats| <= 10 && |order| == 52 && j < |t.seats|
    requires |NonBusted(ResetSeats(t.seats))| >= 2
    ensures var h, seats := StartHand(t, order, small, big), ResetSeats(t.seats);
            var m, k := Between(seats, 0, |seats|), Between(seats, 0, j);
            && 2 * m <= 20 && k <= m && h.deck == order[..52 - 2 * m]
            && h.seats[j].hole == if t.seats[j].chips <= 0 then [] else [order[51 - k], order[51 - m - k]]
  {
    hide StartHand, Blinded, DealHole, SeatsIn, Between;
    var b, seats := Blinded(t, order, small, big), ResetSeats(t.seats);
    OpeningDealt(t, order, small, big);
    BlindedHasNoHoles(t, order, small, big);
    HoleCardsOf(b, j);
    BlindedStatus(t, order, small, big);
    BetweenSame(b.seats, seats, 0, |seats|);
    BetweenSame(b.seats, seats, 0, j);
  }

  lemma BlindedStatus(t: Table, order: seq<Card>, small: int, big: int)
    requires Placed(t) && |NonBusted(ResetSeats(t.seats))| >= 2
    ensures var b := Blinded(t, order, small, big);
            forall i :: 0 <= i < |t.seats| ==> (b.seats[i].status == Busted <==> t.seats[i].chips <= 0)
  {
    hide SeatsIn, IndexOf, NextDealer, BlindSeats;
    var t1 := MoveButton(ClearTable(t, order));
    ButtonIsPlayed(ClearTable(t, order));
    BlindSeatsArePlayers(t1);
    var (sb, bb) := BlindSeats(NonBusted(t1.seats), t1.dealer);
    var t2 := PostSmallBlind(t1, sb, small);
    forall i | 0 <= i < |t.seats|
      ensures PostBigBlind(t2, bb, big).seats[i].status == Busted <==> t.seats[i].chips <= 0
    {
      assert t1.seats[i] == ResetSeat(t.seats[i]).(isDealer := i == t1.dealer);
    }
  }
}
