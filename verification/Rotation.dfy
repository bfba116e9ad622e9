/** The button and the blinds go round fairly (poker/game.py:252-293). */
module Rotation {
  import opened Prelude
  import opened Cards
  import opened TableModel
  import opened Bookkeeping
  import opened PotLayers
  import opened Payout
  import opened CardsInPlay
  import opened Settlement
  import opened Rounds

  /** The dealer `k` hands after `dealer`, while the players who are not busted stay the same. */
  function DealerAfter(players: seq<nat>, dealer: nat, k: nat): (d: nat)
    requires players != [] && dealer in players
    ensures d in players
  {
    if k == 0 then dealer
    else players[(IndexOf(players, DealerAfter(players, dealer, k - 1)) + 1) % |players|]
  }

  lemma IndexIsUnique(players: seq<nat>, i: nat)
    requires Ascending(players) && i < |players|
    ensures IndexOf(players, players[i]) == i
  {
  }

  lemma {:induction false} DealerPosition(players: seq<nat>, dealer: nat, k: nat)
    requires Ascending(players) && dealer in players
    ensures IndexOf(players, DealerAfter(players, dealer, k)) == (IndexOf(players, dealer) + k) % |players|
  {
    var m, p := |players|, IndexOf(players, dealer);
    if k == 0 {
      ModuloIsUnique(p, m, 0, p);
    } else {
      DealerPosition(players, dealer, k - 1);
      StepModulo(p + k - 1, m);
      IndexIsUnique(players, (p + k) % m);
    }
  }

  lemma StepModulo(x: nat, m: nat)
    requires m > 0
    ensures (x % m + 1) % m == (x + 1) % m
  {
    ShiftModulo(x, 1, m);
  }

  lemma ShiftModulo(x: nat, c: nat, m: nat)
    requires m > 0
    ensures (x % m + c) % m == (x + c) % m
  {
    var q, r := x / m, x % m + c;
    assert x + c == q * m + r;
    assert r == (r / m) * m + r % m;
    assert x + c == (q + r / m) * m + r % m;
    ModuloIsUnique(x + c, m, q + r / m, r % m);
  }

  /** The place a counter modulo `m` has reached `k` steps after `x`. */
  function Place(x: nat, k: nat, m: nat): nat
    requires m > 0
  {
    (x + k) % m
  }

  lemma PlaceAfter(x: nat, k: nat, d: nat, m: nat)
    requires d < m
    ensures Place(x, k, m) < m && Place(x, k + d, m) == Wrap(Place(x, k, m) + d, m)
  {
    ShiftModulo(x + k, d, m);
    assert x + (k + d) == x + k + d;
    WrapIsModulo((x + k) % m + d, m);
  }

  /** In `m` consecutive steps the counter meets every place exactly once. */
  lemma MeetsOnce(x: nat, m: nat, from: nat, j: nat) returns (k: nat)
    requires j < m
    ensures from <= k < from + m && Place(x, k, m) == j
    ensures forall k': nat :: from <= k' < from + m && Place(x, k', m) == j ==> k' == k
  {
    hide Place;
    PlaceAfter(x, from, 0, m);
    var r := Place(x, from, m);
    var d := if j >= r then j - r else j + m - r;
    k := from + d;
    PlaceAfter(x, from, d, m);
    forall k': nat | from <= k' < from + m && Place(x, k', m) == j ensures k' == k {
      PlaceAfter(x, from, k' - from, m);
    }
  }

  datatype Role = Button | SmallBlind | BigBlind

  /** The seat with the role in the hand `k` hands after the one dealt by `dealer`. */
  function SeatOf(role: Role, players: seq<nat>, dealer: nat, k: nat): nat
    requires |players| >= 2 && dealer in players
  {
    var d := DealerAfter(players, dealer, k);
    match role
    case Button => d
    case SmallBlind => BlindSeats(players, d).0
    case BigBlind => BlindSeats(players, d).1
  }

  /** How many players to the left of the dealer the role sits. */
  function Offset(role: Role, m: nat): nat {
    match role
    case Button => 0
    case SmallBlind => if m == 2 then 0 else 1
    case BigBlind => if m == 2 then 1 else 2
  }

  lemma BlindPositions(players: seq<nat>, q: nat)
    requires Ascending(players) && |players| >= 2 && q < |players|
    ensures BlindSeats(players, players[q]).0 == players[Wrap(q + Offset(SmallBlind, |players|), |players|)]
    ensures BlindSeats(players, players[q]).1 == players[Wrap(q + Offset(BigBlind, |players|), |players|)]
  {
    IndexIsUnique(players, q);
    WrapIsModulo(q + 1, |players|);
    WrapIsModulo(q + 2, |players|);
  }

  lemma RolePosition(role: Role, players: seq<nat>, dealer: nat, k: nat)
    requires Ascending(players) && |players| >= 2 && dealer in players
    ensures var x, m := IndexOf(players, dealer) + Offset(role, |players|), |players|;
            Place(x, k, m) < m && SeatOf(role, players, dealer, k) == players[Place(x, k, m)]
  {
    hide DealerAfter, IndexOf, Place;
    var m, p, c := |players|, IndexOf(players, dealer), Offset(role, |players|);
    DealerPosition(players, dealer, k);
    var q := Place(p, k, m);
    assert q == IndexOf(players, DealerAfter(players, dealer, k)) && Place(p + c, k, m) == Place(p, k + c, m) by {
      Regrouped(p, c, k, m);
    }
    BlindPositions(players, q);
    PlaceAfter(p, k, c, m);
  }

  lemma Regrouped(p: nat, c: nat, k: nat, m: nat)
    requires m > 0
    ensures Place(p, k, m) == (p + k) % m && Place(p + c, k, m) == Place(p, k + c, m)
  {
    assert p + c + k == p + (k + c);
  }

  /**
   * As long as the same players are not busted and the dealer is one of them, any as many consecutive hands as there
   * are players give each player the button, the small blind and the big blind exactly once.
   */
  lemma EverybodyOnce(role: Role, players: seq<nat>, dealer: nat, from: nat, seat: nat)
    requires Ascending(players) && |players| >= 2 && dealer in players && seat in players
    ensures exists k: nat :: from <= k < from + |players| && SeatOf(role, players, dealer, k) == seat
                        && forall k': nat :: from <= k' < from + |players| && SeatOf(role, players, dealer, k') == seat
                              ==> k' == k
  {
    hide IndexOf, SeatOf, Place;
    var m, x := |players|, IndexOf(players, dealer) + Offset(role, |players|);
    var j := IndexOf(players, seat);
    var k := MeetsOnce(x, m, from, j);
    forall k': nat | from <= k' < from + m ensures SeatOf(role, players, dealer, k') == seat <==> Place(x, k', m) == j {
      RolePosition(role, players, dealer, k');
      IndexIsUnique(players, Place(x, k', m));
    }
    assert SeatOf(role, players, dealer, k) == seat;
  }

  /** The roles of a hand as `start_new_hand` deals them are those of the next hand in the rotation. */
  lemma HandFollowsRotation(t: Table, order: seq<Card>, small: int, big: int)
    requires Placed(t) && |t.seats| <= 10 && |order| == 52 && NoDebts(t.seats) && 0 < small && 0 < big
    requires |NonBusted(ResetSeats(t.seats))| >= 2 && t.dealer in NonBusted(ResetSeats(t.seats))
    ensures var players := NonBusted(ResetSeats(t.seats));
            && StartHand(t, order, small, big).dealer == SeatOf(Button, players, t.dealer, 1)
            && HandBlinds(t).0 == SeatOf(SmallBlind, players, t.dealer, 1)
            && HandBlinds(t).1 == SeatOf(BigBlind, players, t.dealer, 1)
  {
    hide SeatsIn, IndexOf, BlindSeats, HandBlinds, Blinded, StartHand, DealHole, NextDealer, DealerAfter;
    var players := NonBusted(ResetSeats(t.seats));
    BlindedDealer(t, order, small, big);
    OpeningDealt(t, order, small, big);
    FirstDealer(t, players);
  }

  lemma FirstDealer(t: Table, players: seq<nat>)
    requires Placed(t) && players == NonBusted(ResetSeats(t.seats)) && t.dealer in players
    ensures NextDealer(ResetSeats(t.seats), t.dealer) == DealerAfter(players, t.dealer, 1)
  {
    hide SeatsIn, IndexOf;
    assert DealerAfter(players, t.dealer, 0) == t.dealer;
  }

  // ---------------------------------------------------------------- hand after hand

  /** One hand: the shuffle, and everything that is asked for until the showdown. */
  datatype Hand = Hand(order: seq<Card>, events: seq<Event>)

  /** The hand is dealt on table `t`, played, and settled, which leaves table `u`. */
  ghost predicate HandPlayed(t: Table, u: Table, hand: Hand, small: int, big: int) {
    && Placed(t) && |t.seats| <= 10 && Shuffled(hand.order) && |NonBusted(ResetSeats(t.seats))| >= 2
    && var h := StartHand(t, hand.order, small, big);
       Playable(h) && HasCards(Exec(h, hand.events)) && u == Settle(Exec(h, hand.events))
  }

  /** A game: each hand is dealt on the table the hand before has left. */
  ghost predicate GamePlayed(tables: seq<Table>, hands: seq<Hand>, small: int, big: int) {
    && |tables| == |hands| + 1 && 0 < small && 0 < big && NoDebts(tables[0].seats)
    && forall j :: 0 <= j < |hands| ==> HandPlayed(tables[j], tables[j + 1], hands[j], small, big)
  }

  lemma {:induction false} ExecKeepsDealer(t: Table, events: seq<Event>)
    requires Playable(t)
    ensures Exec(t, events).dealer == t.dealer
  {
    hide Playable, FirstActor, DealBoard, Scan, RoundCloses;
    if events != [] {
      var u := Exec(t, events[..|events| - 1]);
      ExecKeepsDealer(t, events[..|events| - 1]);
      PlayableMeans(u);
      match events[|events| - 1]
      case Request(id, action, amount) =>
      case NextStreet =>
        AdvancePhaseKeepsCards(u);
        AdvanceKeepsDealer(u);
    }
  }

  lemma AdvanceKeepsDealer(t: Table)
    requires Placed(t) && EnoughCards(t)
    ensures AdvancePhase(t).dealer == t.dealer
  {
    hide DealBoard, FirstActor;
    if t.complete && |Remaining(t.seats)| > 1 && t.phase in {Preflop, Flop, Turn} {
      DealKeeps(t.(phase := NextPhase(t.phase)), CardsOfPhase(t.phase));
    }
  }

  lemma SettleKeepsDealer(t: Table)
    requires HasCards(t)
    ensures Settle(t).dealer == t.dealer && |Settle(t).seats| == |t.seats| && Settle(t).cur == t.cur
  {
    hide LiveHands, SeatsIn, WonIn, MaxLive, UpTo;
  }

  /** The showdown takes chips from nobody. */
  lemma SettleLeavesNoDebts(t: Table, stake: int)
    requires Ledger(t, stake) && HasCards(t)
    ensures NoDebts(Settle(t).seats)
  {
    hide LiveHands, SettlePots, Sum, Contributions;
    var live := SeatsIn(t.seats, {Active, AllIn});
    LedgerMeans(t, stake);
    assert t.pot >= 0 by { SumIsNonNegative(Contributions(t.seats)); }
    if |live| >= 2 { SettledMoney(t, Contributions(t.seats), LiveHands(t)); }
  }

  /** The button is where the hand began, and nobody is in debt. */
  lemma HandLeaves(t: Table, u: Table, hand: Hand, small: int, big: int)
    requires HandPlayed(t, u, hand, small, big) && NoDebts(t.seats)
    ensures u.dealer == StartHand(t, hand.order, small, big).dealer && NoDebts(u.seats)
  {
    hide StartHand, Settle, NoDebts, Ledger, Playable, HasCards;
    var h := StartHand(t, hand.order, small, big);
    ExecKeepsDealer(h, hand.events);
    SettleKeepsDealer(Exec(h, hand.events));
    StartHandLedger(t, hand.order, small, big);
    RunKeepsLedger(h, hand.events, Sum(Chips(t.seats)));
    SettleLeavesNoDebts(Exec(h, hand.events), Sum(Chips(t.seats)));
  }

  /** The seat that has the role in the hand dealt on table `t`. */
  function RoleInHand(role: Role, t: Table, order: seq<Card>, small: int, big: int): nat
    requires Placed(t) && |t.seats| <= 10 && |order| == 52 && |NonBusted(ResetSeats(t.seats))| >= 2
  {
    match role
    case Button => StartHand(t, order, small, big).dealer
    case SmallBlind => HandBlinds(t).0
    case BigBlind => HandBlinds(t).1
  }

  /** The same players are not busted at the start of every hand. */
  ghost predicate SamePlayers(tables: seq<Table>, hands: seq<Hand>, players: seq<nat>) {
    |tables| == |hands| + 1 && forall j :: 0 <= j < |hands| ==> NonBusted(ResetSeats(tables[j].seats)) == players
  }

  /** The seat that has the role in the `j`-th hand. */
  ghost function RoleInGame(role: Role, tables: seq<Table>, hands: seq<Hand>, small: int, big: int, j: nat): nat
    requires GamePlayed(tables, hands, small, big) && j < |hands|
  {
    assert HandPlayed(tables[j], tables[j + 1], hands[j], small, big);
    RoleInHand(role, tables[j], hands[j].order, small, big)
  }

  /** The roles of a hand dealt with the button where it was left `j` hands after `dealer`. */
  lemma RolesAfter(t: Table, order: seq<Card>, small: int, big: int, players: seq<nat>, dealer: nat, j: nat, role: Role)
    requires Placed(t) && |t.seats| <= 10 && |order| == 52 && NoDebts(t.seats) && 0 < small && 0 < big
    requires players == NonBusted(ResetSeats(t.seats)) && |players| >= 2 && dealer in players
    requires t.dealer == DealerAfter(players, dealer, j)
    ensures RoleInHand(role, t, order, small, big) == SeatOf(role, players, dealer, j + 1)
  {
    hide StartHand, HandBlinds, BlindSeats, IndexOf, SeatsIn, DealerAfter;
    HandFollowsRotation(t, order, small, big);
    NextRotation(players, dealer, j);
  }

  lemma {:induction false} RolesRotate(tables: seq<Table>, hands: seq<Hand>, small: int, big: int, players: seq<nat>,
                                       j: nat)
    requires GamePlayed(tables, hands, small, big) && SamePlayers(tables, hands, players)
    requires |players| >= 2 && tables[0].dealer in players && j < |hands|
    ensures NoDebts(tables[j].seats) && tables[j].dealer == DealerAfter(players, tables[0].dealer, j)
    ensures forall role: Role :: RoleInGame(role, tables, hands, small, big, j)
                              == SeatOf(role, players, tables[0].dealer, j + 1)
  {
    hide StartHand, NoDebts, SeatsIn, HandBlinds, Playable, HasCards, Settle, BlindSeats, IndexOf, DealerAfter, Exec;
    var d := tables[0].dealer;
    if j > 0 {
      RolesRotate(tables, hands, small, big, players, j - 1);
      HandLeaves(tables[j - 1], tables[j], hands[j - 1], small, big);
      assert RoleInGame(Button, tables, hands, small, big, j - 1) == SeatOf(Button, players, d, j);
    } else {
      assert DealerAfter(players, d, 0) == d by { NoHandsLater(players, d); }
    }
    assert HandPlayed(tables[j], tables[j + 1], hands[j], small, big);
    forall role: Role ensures RoleInGame(role, tables, hands, small, big, j) == SeatOf(role, players, d, j + 1) {
      RolesAfter(tables[j], hands[j].order, small, big, players, d, j, role);
    }
  }

  lemma NoHandsLater(players: seq<nat>, dealer: nat)
    requires players != [] && dealer in players
    ensures DealerAfter(players, dealer, 0) == dealer
  {
  }

  lemma NextRotation(players: seq<nat>, dealer: nat, j: nat)
    requires |players| >= 2 && dealer in players
    ensures forall role: Role ::
              SeatOf(role, players, DealerAfter(players, dealer, j), 1) == SeatOf(role, players, dealer, j + 1)
  {
    hide IndexOf, BlindSeats;
    assert DealerAfter(players, DealerAfter(players, dealer, j), 1) == DealerAfter(players, dealer, j + 1) by {
      assert DealerAfter(players, DealerAfter(players, dealer, j), 0) == DealerAfter(players, dealer, j);
    }
  }

  /**
   * In a game in which no player busts or comes back, whatever is done in the hands, any as many consecutive hands as
   * there are players give each of them the button, the small blind and the big blind exactly once.
   */
  lemma EachRoleOnce(role: Role, tables: seq<Table>, hands: seq<Hand>, small: int, big: int, players: seq<nat>,
                     from: nat, seat: nat) returns (k: nat)
    requires GamePlayed(tables, hands, small, big) && SamePlayers(tables, hands, players)
    requires |players| >= 2 && tables[0].dealer in players && seat in players && from + |players| <= |hands|
    ensures from <= k < from + |players|
    ensures forall j: nat :: from <= j < from + |players| ==>
              (RoleInGame(role, tables, hands, small, big, j) == seat <==> j == k)
  {
    hide SeatOf, RoleInGame, SeatsIn, GamePlayed;
    var d := tables[0].dealer;
    assert Ascending(players) by { PlayersAscend(tables, hands, players); }
    EverybodyOnce(role, players, d, from + 1, seat);
    var next: nat :| from + 1 <= next < from + 1 + |players| && SeatOf(role, players, d, next) == seat
      && forall k': nat :: from + 1 <= k' < from + 1 + |players| && SeatOf(role, players, d, k') == seat ==> k' == next;
    k := next - 1;
    forall j: nat | from <= j < from + |players|
      ensures RoleInGame(role, tables, hands, small, big, j) == seat <==> j == k
    {
      RolesRotate(tables, hands, small, big, players, j);
    }
  }

  lemma PlayersAscend(tables: seq<Table>, hands: seq<Hand>, players: seq<nat>)
    requires SamePlayers(tables, hands, players) && |hands| > 0
    ensures Ascending(players)
  {
    assert NonBusted(ResetSeats(tables[0].seats)) == players;
  }
}
