/** No card is ever duplicated or dealt twice, and the deck never runs out. */
module CardsInPlay {
  import opened Prelude
  import opened Cards
  import opened TableModel
  import opened Bookkeeping

  function HoleCards(seats: seq<Seat>): multiset<Card> {
    if seats == [] then multiset{}
    else HoleCards(seats[..|seats| - 1]) + multiset(seats[|seats| - 1].hole)
  }

  /** Every card that is in the deck, on the board or in somebody's hand. */
  function InPlay(t: Table): multiset<Card> {
    multiset(t.deck) + multiset(t.board) + HoleCards(t.seats)
  }

  /** Two cards for every player who is not busted. */
  predicate HandsDealt(seats: seq<Seat>, n: nat) {
    forall i :: 0 <= i < |seats| ==> |seats[i].hole| == if seats[i].status == Busted then 0 else n
  }

  /** Burned cards, by the number of cards on the board. */
  function Burned(board: nat): nat {
    if board < 3 then 0 else board - 2
  }

  predicate BoardFits(phase: Phase, board: nat, remaining: nat) {
    match phase
    case Preflop => board == 0
    case Flop => board == 3
    case Turn => board == 4
    case River => board == 5
    case Showdown => board in {0, 3, 4, 5} && (remaining >= 2 ==> board == 5)
    case Finished => false
  }

  /** The state of the cards of a hand in progress. */
  predicate CardsSound(t: Table) {
    && InPlay(t) <= multiset(FullDeck())
    && |InPlay(t)| + Burned(|t.board|) == 52
    && HandsDealt(t.seats, 2)
    && BoardFits(t.phase, |t.board|, |Remaining(t.seats)|)
  }

  /** No card is in two places. */
  lemma NoCardTwice(t: Table, c: Card)
    requires CardsSound(t)
    ensures InPlay(t)[c] <= 1
  {
    FullDeckHasEveryCardOnce(c);
  }

  // ---------------------------------------------------------------- counting

  lemma {:induction false} HoleCount(seats: seq<Seat>, n: nat)
    requires HandsDealt(seats, n)
    ensures |HoleCards(seats)| == |NonBusted(seats)| * n
  {
    hide SeatsIn;
    if seats == [] {
      NoPlayers();
    } else {
      var p := seats[..|seats| - 1];
      HoleCount(p, n);
      OneMorePlayer(seats);
      OneMoreTime(|NonBusted(p)|, n);
    }
  }

  lemma NoPlayers()
    ensures NonBusted([]) == []
  {
  }

  lemma OneMorePlayer(seats: seq<Seat>)
    requires seats != []
    ensures |NonBusted(seats)|
         == |NonBusted(seats[..|seats| - 1])| + if seats[|seats| - 1].status == Busted then 0 else 1
  {
  }

  lemma {:induction false} FewPlayers(seats: seq<Seat>)
    ensures |NonBusted(seats)| <= |seats|
  {
    if seats != [] {
      FewPlayers(seats[..|seats| - 1]);
      OneMorePlayer(seats);
    }
  }

  /** With at most ten players a street can always be dealt. */
  lemma DeckNeverRunsOut(t: Table)
    requires CardsSound(t) && |t.seats| <= 10
    ensures |t.deck| >= 24
  {
    hide HoleCards, SeatsIn, FullDeck;
    HoleCount(t.seats, 2);
    FewPlayers(t.seats);
  }

  lemma {:induction false} SameHoles(a: seq<Seat>, b: seq<Seat>)
    requires |a| == |b| && forall i :: 0 <= i < |a| ==> a[i].hole == b[i].hole
    ensures HoleCards(a) == HoleCards(b)
  {
    if a != [] { SameHoles(a[..|a| - 1], b[..|b| - 1]); }
  }

  lemma {:induction false} OneMoreCard(seats: seq<Seat>, k: nat, s: Seat, card: Card)
    requires k < |seats| && s.hole == seats[k].hole + [card]
    ensures HoleCards(seats[k := s]) == HoleCards(seats) + multiset{card}
  {
    var n := |seats| - 1;
    var p := seats[..n];
    if k == n {
      assert seats[k := s][..n] == p;
    } else {
      assert seats[k := s][..n] == p[k := s];
      OneMoreCard(p, k, s, card);
    }
  }

  // ---------------------------------------------------------------- dealing

  lemma TopCard(deck: seq<Card>)
    requires deck != []
    ensures multiset(deck) == multiset(deck[..|deck| - 1]) + multiset{deck[|deck| - 1]}
  {
    assert deck == deck[..|deck| - 1] + [deck[|deck| - 1]];
  }

  lemma OneCardDealt(t: Table, i: nat)
    requires i < |t.seats| && |t.deck| > 0
    ensures InPlay(CardGiven(t, i)) == InPlay(t)
  {
    hide HoleCards;
    OneMoreCard(t.seats, i, CardGiven(t, i).seats[i], t.deck[|t.deck| - 1]);
    TopCard(t.deck);
  }

  lemma {:induction false} DealRoundCards(t: Table, i: nat, n: nat)
    requires i <= |t.seats| && |t.deck| >= |t.seats| - i
    requires forall j :: 0 <= j < |t.seats| ==>
               |t.seats[j].hole| == if t.seats[j].status == Busted then 0 else if j < i then n + 1 else n
    ensures InPlay(DealRound(t, i)) == InPlay(t) && HandsDealt(DealRound(t, i).seats, n + 1)
    decreases |t.seats| - i
  {
    hide InPlay;
    if i < |t.seats| {
      if t.seats[i].status == Busted {
        DealRoundCards(t, i + 1, n);
      } else {
        var t1 := CardGiven(t, i);
        OneCardDealt(t, i);
        DealRoundCards(t1, i + 1, n);
      }
    }
  }

  lemma DealHoleCards(t: Table)
    requires |t.deck| >= 2 * |t.seats| && HandsDealt(t.seats, 0)
    ensures InPlay(DealHole(t)) == InPlay(t) && HandsDealt(DealHole(t).seats, 2)
  {
    DealRoundCards(t, 0, 0);
    DealRoundCards(DealRound(t, 0), 0, 1);
  }

  lemma {:induction false} NoHoles(seats: seq<Seat>)
    requires forall i :: 0 <= i < |seats| ==> seats[i].hole == []
    ensures HoleCards(seats) == multiset{}
  {
    if seats != [] { NoHoles(seats[..|seats| - 1]); }
  }

  lemma BlindedHasNoHoles(t: Table, order: seq<Card>, small: int, big: int)
    requires Placed(t) && |NonBusted(ResetSeats(t.seats))| >= 2
    ensures var b := Blinded(t, order, small, big);
            b.board == [] && b.deck == order && b.phase == Preflop
            && forall i :: 0 <= i < |b.seats| ==> b.seats[i].hole == []
  {
    hide SeatsIn, IndexOf;
    ButtonIsPlayed(ClearTable(t, order));
    BlindSeatsArePlayers(MoveButton(ClearTable(t, order)));
  }

  lemma UndealtDeck(b: Table)
    requires b.board == [] && HoleCards(b.seats) == multiset{}
    ensures InPlay(b) == multiset(b.deck)
  {
    assert multiset(b.board) == multiset{};
  }

  /** A hand starts with the whole shuffled deck split between deck and players. */
  lemma StartHandCards(t: Table, order: seq<Card>, small: int, big: int)
    requires Placed(t) && |t.seats| <= 10 && Shuffled(order) && |NonBusted(ResetSeats(t.seats))| >= 2
    ensures CardsSound(StartHand(t, order, small, big))
    ensures InPlay(StartHand(t, order, small, big)) == multiset(FullDeck())
  {
    hide StartHand, Blinded, DealHole, SeatsIn, InPlay, HoleCards, FullDeck;
    var b := Blinded(t, order, small, big);
    BlindedHasNoHoles(t, order, small, big);
    NoHoles(b.seats);
    DealHoleCards(b);
    OpeningDealt(t, order, small, big);
    UndealtDeck(b);
    SameInPlay(DealHole(b), StartHand(t, order, small, big));
    assert |multiset(FullDeck())| == |FullDeck()| == 52;
  }

  // ---------------------------------------------------------------- playing

  lemma ActingKeepsCards(t: Table, action: Action, amount: int)
    requires Placed(t) && Accepts(t, t.cur, action, amount)
    ensures var s, s' := t.seats[t.cur], ActingSeat(t, action, amount);
            s'.hole == s.hole && s'.status != Busted && (s'.status in {Active, AllIn} ==> s.status == Active)
  {
  }

  lemma StepLeavesCards(t: Table, action: Action, amount: int)
    requires Placed(t) && Accepts(t, t.cur, action, amount)
    ensures var t' := Step(t, t.cur, action, amount);
            t' == TakeAction(t, action, amount).(cur := t'.cur, complete := t'.complete)
  {
    hide Scan, RoundCloses;
  }

  lemma StepKeepsCards(t: Table, id: int, action: Action, amount: int)
    requires Placed(t) && CardsSound(t)
    ensures CardsSound(Step(t, id, action, amount)) && InPlay(Step(t, id, action, amount)) == InPlay(t)
  {
    hide Step, Accepts, FullDeck;
    if Accepts(t, id, action, amount) {
      assert id == t.cur by { AcceptedIsCurrent(t, id, action, amount); }
      ActingKeepsCards(t, action, amount);
      StepLeavesCards(t, action, amount);
      var t1 := TakeAction(t, action, amount);
      SameHoles(t.seats, t1.seats);
      SubsetSize(Remaining(t1.seats), Remaining(t.seats));
      var t' := Step(t, id, action, amount);
      assert InPlay(t') == InPlay(t);
      assert t.seats[t.cur].status == Active by { AcceptedIsCurrent(t, id, action, amount); }
      assert HandsDealt(t'.seats, 2);
      assert BoardFits(t'.phase, |t'.board|, |Remaining(t'.seats)|);
    } else {
      RefusedChangesNothing(t, id, action, amount);
    }
  }

  lemma AcceptedIsCurrent(t: Table, id: int, action: Action, amount: int)
    requires Placed(t) && Accepts(t, id, action, amount)
    ensures id == t.cur && t.seats[t.cur].status == Active
  {
  }

  lemma RefusedChangesNothing(t: Table, id: int, action: Action, amount: int)
    requires Placed(t) && !Accepts(t, id, action, amount)
    ensures Step(t, id, action, amount) == t
  {
  }

  lemma DealBoardCards(t: Table, k: nat)
    requires |t.deck| >= k + 1
    ensures DealBoard(t, k).seats == t.seats && DealBoard(t, k).phase == t.phase
            && |DealBoard(t, k).board| == |t.board| + k
    ensures InPlay(DealBoard(t, k)) <= InPlay(t) && |InPlay(DealBoard(t, k))| == |InPlay(t)| - 1
  {
    var t1 := t.(deck := t.deck[..|t.deck| - 1]);
    assert DealBoard(t, k) == DealCards(t1, k);
    DealKeeps(t, k);
    DealCardsKeeps(t1, k);
    TopCard(t.deck);
    var d := DealBoard(t, k);
    Regrouped(multiset(d.board), multiset(d.deck), multiset(t1.board), multiset(t1.deck));
    assert InPlay(d) == InPlay(t1);
    assert InPlay(t) == InPlay(t1) + multiset{t.deck[|t.deck| - 1]};
  }

  lemma Regrouped(a: multiset<Card>, b: multiset<Card>, a': multiset<Card>, b': multiset<Card>)
    requires a + b == a' + b'
    ensures b + a == b' + a'
  {
    assert b + a == a + b && b' + a' == a' + b';
  }

  lemma StartRoundKeepsCards(t: Table)
    requires Placed(t)
    ensures var r := StartRound(t);
            InPlay(r) == InPlay(t) && Remaining(r.seats) == Remaining(t.seats)
            && (HandsDealt(t.seats, 2) ==> HandsDealt(r.seats, 2)) && r.board == t.board && r.phase == t.phase
  {
    hide FirstActor, HoleCards;
    SameHoles(t.seats, StartRound(t).seats);
  }

  lemma AdvancePhaseKeepsCards(t: Table)
    requires Placed(t) && |t.seats| <= 10 && CardsSound(t)
    ensures |t.deck| >= CardsOfPhase(t.phase) + 1
    ensures CardsSound(AdvancePhase(t)) && InPlay(AdvancePhase(t)) <= InPlay(t)
  {
    hide FirstActor, DealBoard, StartRound, FullDeck, InPlay, Remaining, HandsDealt;
    DeckNeverRunsOut(t);
    if t.complete && |Remaining(t.seats)| > 1 && t.phase in {Preflop, Flop, Turn} {
      var t1 := t.(phase := NextPhase(t.phase));
      var k := CardsOfPhase(t.phase);
      SameInPlay(t, t1);
      DealBoardCards(t1, k);
      DealKeeps(t1, k);
      StartRoundKeepsCards(DealBoard(t1, k));
    } else {
      SameInPlay(t, AdvancePhase(t));
    }
  }

  lemma SameInPlay(t: Table, t': Table)
    requires t'.seats == t.seats && t'.board == t.board && t'.deck == t.deck
    ensures InPlay(t') == InPlay(t)
  {
  }
}
