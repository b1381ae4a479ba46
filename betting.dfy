/**
 * The betting state of main.py's `Game` as values: one `Seat` per `Player`, the index of the
 * player whose turn it is, `current_bet` and `pot`. Each action of the game is a function from
 * the table before to the table after; `None` stands for the `ValueError` an action raises
 * before it touches anything.
 */
module Betting {
  import opened Wrappers
  import opened Cards

  /** The fields of one `Player` (main.py:5-14); `bet` is the `_bet` behind the property. */
  datatype Seat = Seat(hand: seq<Card>, chips: int, bet: int, totalBet: int,
                       dealer: bool, madeAction: bool, folded: bool)

  /** A seat apart from whether it has acted: the part that moving the turn never touches. */
  function Stake(s: Seat): Seat {
    s.(madeAction := false)
  }

  /**
   * Assigning `player.bet = value` (the setter at main.py:20-25). `_bet` becomes `value`;
   * `total_bet` records a lowered bet in full and ignores a raised one, so it never grows.
   */
  function AssignBet(s: Seat, value: int): (r: Seat)
    ensures r.bet == value && r.totalBet <= s.totalBet
    ensures value >= s.bet ==> r.totalBet == s.totalBet
    ensures value < s.bet ==> s.totalBet - r.totalBet == s.bet - value
    ensures r.(bet := s.bet, totalBet := s.totalBet) == s
  {
    var difference := value - s.bet;
    if difference < 0 then s.(totalBet := s.totalBet + difference, bet := value)
    else s.(bet := value)
  }

  /** The table: `players` in list order, the index of `current_player`, `current_bet`, `pot`. */
  datatype Table = Table(seats: seq<Seat>, current: nat, currentBet: int, pot: int)

  predicate SomeActive(seats: seq<Seat>) {
    exists j :: 0 <= j < |seats| && !seats[j].folded
  }

  /** `rotate_player` can run: the turn is on a seat and some player has not folded. */
  predicate Ready(t: Table) {
    t.current < |t.seats| && SomeActive(t.seats)
  }

  /** The seat `m` places after seat `c`, going round a table of `n` seats. */
  function At(c: nat, m: nat, n: nat): (j: nat)
    requires c < n && m <= n
    ensures j < n
  {
    if c + m < n then c + m else c + m - n
  }

  /** How many places after seat `c` seat `j` sits, going round (0 for `c` itself). */
  function Offset(c: nat, j: nat, n: nat): (m: nat)
    requires c < n && j < n
    ensures m < n && At(c, m, n) == j
    ensures forall k :: 0 <= k < n && At(c, k, n) == j ==> k == m
  {
    if c <= j then j - c else j + n - c
  }

  /** The step of `rotate_player`: the next index, wrapping to 0 after the last (main.py:169). */
  function Next(i: nat, n: nat): (j: nat)
    requires i < n
    ensures j < n
  {
    if i + 1 == n then 0 else i + 1
  }

  /** Going round from `c`, every seat comes back at `n` places: if all are folded, none is active. */
  lemma AllFolded(seats: seq<Seat>, c: nat)
    requires c < |seats|
    requires forall m :: 1 <= m <= |seats| ==> seats[At(c, m, |seats|)].folded
    ensures !SomeActive(seats)
  {
    var n := |seats|;
    forall j | 0 <= j < n ensures seats[j].folded {
      var m := Offset(c, j, n);
      if m == 0 {
        assert At(c, n, n) == j;
      } else {
        assert seats[At(c, m, n)].folded;
      }
    }
  }

  /**
   * The number of steps `rotate_player`'s loop takes from seat `c`: the first offset `g >= k`
   * whose seat has not folded, given that the offsets `1 .. k-1` are folded.
   */
  function Gap(seats: seq<Seat>, c: nat, k: nat): (g: nat)
    requires c < |seats| && 1 <= k <= |seats| && SomeActive(seats)
    requires forall m :: 1 <= m < k ==> seats[At(c, m, |seats|)].folded
    ensures k <= g <= |seats| && !seats[At(c, g, |seats|)].folded
    ensures forall m :: 1 <= m < g ==> seats[At(c, m, |seats|)].folded
    decreases |seats| - k
  {
    var n := |seats|;
    if !seats[At(c, k, n)].folded then k
    else if k == n then
      AllFolded(seats, c);
      assert false;
      k
    else Gap(seats, c, k + 1)
  }

  /**
   * `rotate_player` (main.py:165-172): mark the current player as having acted and step to the
   * next seat, marking each folded seat stepped onto in turn, until a seat that has not folded
   * holds the turn. When everyone else has folded, the turn comes back round to the same seat.
   */
  function Rotate(t: Table): (r: Table)
    requires Ready(t)
    ensures Ready(r) && |r.seats| == |t.seats| && r.currentBet == t.currentBet && r.pot == t.pot
  {
    var n := |t.seats|;
    var g := Gap(t.seats, t.current, 1);
    var seats := seq(n, j requires 0 <= j < n =>
      if Offset(t.current, j, n) < g then t.seats[j].(madeAction := true) else t.seats[j]);
    assert !seats[At(t.current, g, n)].folded;
    Table(seats, At(t.current, g, n), t.currentBet, t.pot)
  }

  /**
   * What rotating promises: the turn lands on a seat that has not folded, the seat that held
   * it is marked, and only folded seats in between are marked too; when the turn comes back
   * to the same seat, everyone else has folded.
   */
  lemma RotateSpec(t: Table)
    requires Ready(t)
    ensures var r := Rotate(t);
      !r.seats[r.current].folded && r.seats[t.current].madeAction &&
      (forall j :: 0 <= j < |t.seats| ==>
        r.seats[j] == t.seats[j].(madeAction := r.seats[j].madeAction) &&
        (r.seats[j].madeAction != t.seats[j].madeAction ==> r.seats[j].madeAction && (j == t.current || t.seats[j].folded))) &&
      (r.current != t.current ==>
        forall j | 0 <= j < |t.seats| && 0 < Offset(t.current, j, |t.seats|) < Offset(t.current, r.current, |t.seats|) ::
          t.seats[j].folded && r.seats[j].madeAction) &&
      (r.current == t.current ==> forall j :: 0 <= j < |t.seats| && j != t.current ==> t.seats[j].folded)
  {
    var n := |t.seats|;
    var g := Gap(t.seats, t.current, 1);
    var r := Rotate(t);
    assert Offset(t.current, t.current, n) == 0;
    assert !r.seats[r.current].folded;
    assert g == n ==> forall j :: 0 <= j < n && j != t.current ==> t.seats[j].folded by {
      if g == n {
        forall j | 0 <= j < n && j != t.current ensures t.seats[j].folded {
          assert t.seats[At(t.current, Offset(t.current, j, n), n)].folded;
        }
      }
    }
    assert g < n ==> Offset(t.current, r.current, n) == g;
  }

  /** Rotating changes nothing but the `made_action` marks. */
  lemma RotateKeepsStakes(t: Table)
    requires Ready(t)
    ensures forall j :: 0 <= j < |t.seats| ==> Stake(Rotate(t).seats[j]) == Stake(t.seats[j])
  {
    var r := Rotate(t);
    forall j | 0 <= j < |t.seats| ensures Stake(r.seats[j]) == Stake(t.seats[j]) {
      assert r.seats[j] == t.seats[j].(madeAction := r.seats[j].madeAction);
    }
  }

  /** Changing one seat without changing whether it folded keeps some player active. */
  lemma UpdateKeepsActive(seats: seq<Seat>, i: nat, s: Seat)
    requires SomeActive(seats) && i < |seats| && s.folded == seats[i].folded
    ensures SomeActive(seats[i := s])
  {
    var j :| 0 <= j < |seats| && !seats[j].folded;
    assert !seats[i := s][j].folded;
  }

  /** `check` (main.py:124-128): allowed only when the player's bet matches `current_bet`. */
  function Check(t: Table, i: nat): (r: Option<Table>)
    requires Ready(t) && i < |t.seats|
    ensures r.Some? <==> t.seats[i].bet == t.currentBet
    ensures r.Some? ==> r.value == Rotate(t)
  {
    if t.seats[i].bet == t.currentBet then Some(Rotate(t)) else None
  }

  /** An allowed call is the payment followed by the rotation. */
  lemma CallSteps(t: Table, i: nat)
    requires Ready(t) && i < |t.seats| && t.seats[i].bet < t.currentBet
    ensures var u := t.(seats := t.seats[i := Paid(t.seats[i], t.currentBet).0], pot := t.pot + Paid(t.seats[i], t.currentBet).1);
      Ready(u) && Call(t, i) == Some(Rotate(u))
  {
    UpdateKeepsActive(t.seats, i, Paid(t.seats[i], t.currentBet).0);
  }

  /** An allowed bet is the payment and the new `current_bet`, followed by the rotation. */
  lemma BetSteps(t: Table, i: nat, amount: int)
    requires Ready(t) && i < |t.seats| && amount >= t.currentBet * 2
    ensures var u := t.(seats := t.seats[i := Paid(t.seats[i], amount).0], pot := t.pot + Paid(t.seats[i], amount).1,
                        currentBet := Paid(t.seats[i], amount).0.bet);
      Ready(u) && Bet(t, i, amount) == Some(Rotate(u))
  {
    UpdateKeepsActive(t.seats, i, Paid(t.seats[i], amount).0);
  }

  /**
   * The seat and the pot increase after `s` pays towards a bet of `amount`, as `call`
   * (main.py:132-140, with `amount` = `current_bet`) and `bet` (main.py:147-155) both do. With
   * enough chips the bet becomes `amount` through the setter and the whole `amount` leaves the
   * chips, while the pot only gains the difference to the old bet; a short stack goes all in.
   */
  function Paid(s: Seat, amount: int): (Seat, int) {
    if s.chips >= amount then
      (AssignBet(s, amount).(chips := s.chips - amount), amount - s.bet)
    else
      (AssignBet(s, s.bet + s.chips).(chips := 0), s.chips)
  }

  /** `call` (main.py:130-143). */
  function Call(t: Table, i: nat): (r: Option<Table>)
    requires Ready(t) && i < |t.seats|
    ensures r.Some? <==> t.seats[i].bet < t.currentBet
    ensures r.Some? ==> Ready(r.value) && |r.value.seats| == |t.seats| && r.value.currentBet == t.currentBet
    ensures r.Some? ==>
      Stake(r.value.seats[i]) ==
        Stake(t.seats[i]).(chips := r.value.seats[i].chips, bet := r.value.seats[i].bet, totalBet := r.value.seats[i].totalBet)
    ensures r.Some? ==> r.value.seats[i].totalBet <= t.seats[i].totalBet
    ensures r.Some? && t.seats[i].chips >= t.currentBet ==>
      r.value.seats[i].bet == t.currentBet && r.value.seats[i].chips == t.seats[i].chips - t.currentBet &&
      r.value.pot == t.pot + t.currentBet - t.seats[i].bet
    ensures r.Some? && t.seats[i].chips < t.currentBet ==>
      r.value.seats[i].chips == 0 && r.value.seats[i].bet == t.seats[i].bet + t.seats[i].chips &&
      r.value.pot == t.pot + t.seats[i].chips
    ensures r.Some? ==> forall j :: 0 <= j < |t.seats| && j != i ==> Stake(r.value.seats[j]) == Stake(t.seats[j])
  {
    if t.seats[i].bet < t.currentBet then
      var (after, paid) := Paid(t.seats[i], t.currentBet);
      UpdateKeepsActive(t.seats, i, after);
      var u := t.(seats := t.seats[i := after], pot := t.pot + paid);
      RotateKeepsStakes(u);
      Some(Rotate(u))
    else None
  }

  /** `bet` (main.py:145-159): the amount must be at least double `current_bet`. */
  function Bet(t: Table, i: nat, amount: int): (r: Option<Table>)
    requires Ready(t) && i < |t.seats|
    ensures r.Some? <==> amount >= t.currentBet * 2
    ensures r.Some? ==> Ready(r.value) && |r.value.seats| == |t.seats| && r.value.currentBet == r.value.seats[i].bet
    ensures r.Some? ==>
      Stake(r.value.seats[i]) ==
        Stake(t.seats[i]).(chips := r.value.seats[i].chips, bet := r.value.seats[i].bet, totalBet := r.value.seats[i].totalBet)
    ensures r.Some? ==> r.value.seats[i].totalBet <= t.seats[i].totalBet
    ensures r.Some? && t.seats[i].chips >= amount ==>
      r.value.seats[i].bet == amount && r.value.seats[i].chips == t.seats[i].chips - amount &&
      r.value.pot == t.pot + amount - t.seats[i].bet
    ensures r.Some? && t.seats[i].chips < amount ==>
      r.value.seats[i].chips == 0 && r.value.seats[i].bet == t.seats[i].bet + t.seats[i].chips &&
      r.value.pot == t.pot + t.seats[i].chips
    ensures r.Some? ==> forall j :: 0 <= j < |t.seats| && j != i ==> Stake(r.value.seats[j]) == Stake(t.seats[j])
  {
    if amount >= t.currentBet * 2 then
      var (after, paid) := Paid(t.seats[i], amount);
      UpdateKeepsActive(t.seats, i, after);
      var u := t.(seats := t.seats[i := after], pot := t.pot + paid, currentBet := after.bet);
      RotateKeepsStakes(u);
      Some(Rotate(u))
    else None
  }

  /**
   * `fold` (main.py:161-163): the turn moves on first, then the player folds; the player need
   * not hold the turn, and may be the one the turn lands on.
   */
  function Fold(t: Table, i: nat): (r: Table)
    requires Ready(t) && i < |t.seats|
    ensures |r.seats| == |t.seats| && r.current == Rotate(t).current && r.seats[i].folded
    ensures r.pot == t.pot && r.currentBet == t.currentBet
    ensures Stake(r.seats[i]) == Stake(t.seats[i]).(folded := true)
    ensures forall j :: 0 <= j < |t.seats| && j != i ==> Stake(r.seats[j]) == Stake(t.seats[j])
  {
    var u := Rotate(t);
    RotateKeepsStakes(t);
    u.(seats := u.seats[i := u.seats[i].(folded := true)])
  }

  /**
   * The condition that ends `players_to_act` (main.py:47-48): every player has folded, or has
   * acted and either matches `current_bet` or has no chips left.
   */
  predicate BettingClosed(t: Table) {
    forall j :: 0 <= j < |t.seats| ==>
      (t.seats[j].madeAction && (t.seats[j].bet == t.currentBet || t.seats[j].chips == 0)) || t.seats[j].folded
  }

  /** Moving the turn on never reopens a closed betting round: it only marks players as acted. */
  lemma RotateKeepsClosed(t: Table)
    requires Ready(t) && BettingClosed(t)
    ensures BettingClosed(Rotate(t))
  {
    var r := Rotate(t);
    forall j | 0 <= j < |t.seats|
      ensures (r.seats[j].madeAction && (r.seats[j].bet == r.currentBet || r.seats[j].chips == 0)) || r.seats[j].folded
    {
      assert r.seats[j] == t.seats[j].(madeAction := r.seats[j].madeAction);
    }
  }

  /** The chips held by all seats together. */
  function Chips(seats: seq<Seat>): int {
    if seats == [] then 0 else seats[0].chips + Chips(seats[1..])
  }

  lemma {:induction false} ChipsUpdate(seats: seq<Seat>, i: nat, s: Seat)
    requires i < |seats|
    ensures Chips(seats[i := s]) == Chips(seats) - seats[i].chips + s.chips
  {
    if i > 0 {
      ChipsUpdate(seats[1..], i - 1, s);
      assert seats[i := s][1..] == seats[1..][i - 1 := s];
    }
  }

  lemma {:induction false} ChipsPointwise(a: seq<Seat>, b: seq<Seat>)
    requires |a| == |b| && forall j :: 0 <= j < |a| ==> a[j].chips == b[j].chips
    ensures Chips(a) == Chips(b)
  {
    if a != [] {
      ChipsPointwise(a[1..], b[1..]);
    }
  }

  /**
   * Chip accounting of `call`: chips plus pot stay the same after a short (all-in) call, but a
   * covered call loses the caller's previous bet, because the chips fall by the whole
   * `current_bet` while the pot rises only by the difference (main.py:132-140).
   */
  lemma CallAccounting(t: Table, i: nat)
    requires Ready(t) && i < |t.seats| && Call(t, i).Some?
    ensures var r := Call(t, i).value;
      Chips(r.seats) + r.pot ==
        Chips(t.seats) + t.pot - (if t.seats[i].chips >= t.currentBet then t.seats[i].bet else 0)
  {
    var r := Call(t, i).value;
    ChipsUpdate(t.seats, i, r.seats[i]);
    ChipsPointwise(r.seats, t.seats[i := r.seats[i]]);
  }

  /**
   * Chip accounting of `bet`: a short bet keeps chips plus pot, a covered bet loses the
   * bettor's previous bet, as the chips fall by the whole amount (main.py:147-155).
   */
  lemma BetAccounting(t: Table, i: nat, amount: int)
    requires Ready(t) && i < |t.seats| && Bet(t, i, amount).Some?
    ensures var r := Bet(t, i, amount).value;
      Chips(r.seats) + r.pot ==
        Chips(t.seats) + t.pot - (if t.seats[i].chips >= amount then t.seats[i].bet else 0)
  {
    var r := Bet(t, i, amount).value;
    ChipsUpdate(t.seats, i, r.seats[i]);
    ChipsPointwise(r.seats, t.seats[i := r.seats[i]]);
  }
  /** When the seat after the current one has not folded, the turn moves exactly one seat on. */
  lemma RotateToNext(t: Table)
    requires Ready(t) && !t.seats[Next(t.current, |t.seats|)].folded
    ensures Rotate(t).current == Next(t.current, |t.seats|)
    ensures forall j :: 0 <= j < |t.seats| && j != t.current ==> Rotate(t).seats[j] == t.seats[j]
    ensures Rotate(t).seats[t.current] == t.seats[t.current].(madeAction := true)
  {
    RotateSpec(t);
    var n := |t.seats|;
    var r := Rotate(t);
    var nx := Next(t.current, n);
    if n > 1 {
      assert Offset(t.current, nx, n) == 1;
      assert r.current != t.current;
    }
    forall j | 0 <= j < n && j != t.current ensures r.seats[j] == t.seats[j] {
      if !t.seats[j].folded {
        assert r.seats[j] == t.seats[j].(madeAction := r.seats[j].madeAction);
      } else {
        assert Offset(t.current, j, n) != 0;
        assert !(0 < Offset(t.current, j, n) < Offset(t.current, r.current, n));
        assert r.seats[j] == t.seats[j].(madeAction := r.seats[j].madeAction);
      }
    }
  }

  // ----- Rounds and streets -----

  predicate HasDealer(seats: seq<Seat>) {
    exists j :: 0 <= j < |seats| && seats[j].dealer
  }

  /** The first dealer at or after position `k`, where none comes before `k`. */
  function FirstDealer(seats: seq<Seat>, k: nat): (d: nat)
    requires HasDealer(seats) && k <= |seats|
    requires forall m :: 0 <= m < k ==> !seats[m].dealer
    ensures k <= d < |seats| && seats[d].dealer
    ensures forall m :: 0 <= m < d ==> !seats[m].dealer
    decreases |seats| - k
  {
    if k == |seats| then
      assert false;
      k
    else if seats[k].dealer then k
    else FirstDealer(seats, k + 1)
  }

  /**
   * The loop that moves the first player to the back until a dealer leads the list
   * (main.py:73-74 and 182-183). The turn stays with the same player, wherever it now sits.
   */
  function ToDealer(t: Table): (r: Table)
    requires t.current < |t.seats| && HasDealer(t.seats)
    ensures |r.seats| == |t.seats| && r.current < |r.seats| && r.seats[0].dealer
    ensures r.currentBet == t.currentBet && r.pot == t.pot
    ensures r.seats[r.current] == t.seats[t.current] && r.current == Offset(FirstDealer(t.seats, 0), t.current, |t.seats|)
    ensures forall k :: 0 <= k < |r.seats| ==> r.seats[k] == t.seats[At(FirstDealer(t.seats, 0), k, |t.seats|)]
  {
    var n := |t.seats|;
    var d := FirstDealer(t.seats, 0);
    var r := Table(seq(n, k requires 0 <= k < n => t.seats[At(d, k, n)]), Offset(d, t.current, n), t.currentBet, t.pot);
    assert forall j :: 0 <= j < n ==> t.seats[j] == r.seats[Offset(d, j, n)];
    r
  }

  /** The start of `initialize_round` once the cards are dealt (main.py:67-76). */
  function Opening(t: Table): (r: Table)
    requires t.current < |t.seats| && HasDealer(t.seats)
    ensures Ready(r) && r.current == 0 && r.seats[0].dealer && r.pot == 0 && r.currentBet == t.currentBet
    ensures |r.seats| == |t.seats|
    ensures forall j :: 0 <= j < |r.seats| ==> !r.seats[j].folded && r.seats[j].totalBet == 0
    ensures forall k :: 0 <= k < |r.seats| ==>
      r.seats[k] == t.seats[At(FirstDealer(t.seats, 0), k, |t.seats|)].(folded := false, totalBet := 0)
  {
    var reset := Reset(t.seats);
    SameDealers(t.seats, reset);
    var u := ToDealer(t.(seats := reset, pot := 0));
    assert !u.seats[0].folded;
    u.(current := 0)
  }

  /** Every fold undone and every `total_bet` set to 0 (main.py:68-70). */
  function Reset(seats: seq<Seat>): (r: seq<Seat>)
    ensures |r| == |seats| && forall j :: 0 <= j < |seats| ==> r[j] == seats[j].(folded := false, totalBet := 0)
  {
    seq(|seats|, j requires 0 <= j < |seats| => seats[j].(folded := false, totalBet := 0))
  }

  /** Seats with the same dealer flags have the same first dealer. */
  lemma SameDealers(a: seq<Seat>, b: seq<Seat>)
    requires HasDealer(a) && |b| == |a| && forall j :: 0 <= j < |a| ==> b[j].dealer == a[j].dealer
    ensures HasDealer(b) && FirstDealer(b, 0) == FirstDealer(a, 0)
  {
    var d := FirstDealer(a, 0);
    assert b[d].dealer && forall m :: 0 <= m < d ==> !b[m].dealer;
  }

  /**
   * `initialize_round` after the deal (main.py:67-84): folds and totals cleared, the list turned
   * to the dealer, who posts the small blind; the next player posts the big blind; then both
   * blinds are marked as not having acted. Either blind may raise the bet's `ValueError`.
   */
  function OpenRound(t: Table, small: int, big: int): (r: Option<Table>)
    requires t.current < |t.seats| && HasDealer(t.seats)
    ensures r.Some? <==> small >= 2 * t.currentBet && big >= 2 * Paid(Opening(t).seats[0], small).0.bet
    ensures r.Some? ==> Ready(r.value) && |r.value.seats| == |t.seats| && r.value.seats[0].dealer
    ensures r.Some? ==> !r.value.seats[0].madeAction && !BettingClosed(r.value)
  {
    Blinds(Opening(t), small, big)
  }

  /** Posting the blinds from the dealer's seat 0 (main.py:76-82). */
  function Blinds(u: Table, small: int, big: int): (r: Option<Table>)
    requires Ready(u) && u.current == 0
    ensures r.Some? <==> small >= 2 * u.currentBet && big >= 2 * Paid(u.seats[0], small).0.bet
    ensures r.Some? ==> Ready(r.value) && |r.value.seats| == |u.seats|
    ensures r.Some? ==> r.value.seats[0].dealer == u.seats[0].dealer && r.value.seats[0].folded == u.seats[0].folded
    ensures r.Some? ==> !r.value.seats[0].madeAction && (!u.seats[0].folded ==> !BettingClosed(r.value))
  {
    var sb := Bet(u, 0, small);
    if sb.None? then None
    else
      var bb := Bet(sb.value, sb.value.current, big);
      if bb.None? then None
      else
        var r := Unmark(bb.value, 0, sb.value.current);
        assert Stake(r.seats[0]) == Stake(u.seats[0]).(chips := r.seats[0].chips, bet := r.seats[0].bet, totalBet := r.seats[0].totalBet);
        Some(r)
  }

  /** The three steps of `Blinds`, one after the other. */
  lemma BlindsSteps(u: Table, small: int, big: int)
    requires Ready(u) && u.current == 0
    ensures var sb := Bet(u, 0, small);
      Blinds(u, small, big) ==
        if sb.None? then None
        else
          var bb := Bet(sb.value, sb.value.current, big);
          if bb.None? then None else Some(Unmark(bb.value, 0, sb.value.current))
  {
  }

  /** The two blind posters are marked as not having acted (main.py:81-82). */
  function Unmark(w: Table, sb: nat, bb: nat): (r: Table)
    requires sb < |w.seats| && bb < |w.seats|
    ensures |r.seats| == |w.seats| && r.current == w.current && r.pot == w.pot && r.currentBet == w.currentBet
    ensures !r.seats[sb].madeAction && !r.seats[bb].madeAction
    ensures forall j :: 0 <= j < |w.seats| ==> Stake(r.seats[j]) == Stake(w.seats[j])
  {
    w.(seats := w.seats[sb := w.seats[sb].(madeAction := false)][bb := w.seats[bb].(madeAction := false)])
  }

  predicate NoneFolded(seats: seq<Seat>) {
    forall j :: 0 <= j < |seats| ==> !seats[j].folded
  }

  /**
   * A covered bet by the player holding the turn, when nobody has folded: the bet is paid in
   * full, it becomes `current_bet`, and the turn passes to the next seat.
   */
  lemma CoveredBetMovesOn(t: Table, amount: int)
    requires Ready(t) && NoneFolded(t.seats)
    requires amount >= 2 * t.currentBet && t.seats[t.current].chips >= amount
    ensures var i := t.current; var r := Bet(t, i, amount);
      r.Some? && r.value.current == Next(i, |t.seats|) && NoneFolded(r.value.seats) &&
      r.value.currentBet == amount && r.value.pot == t.pot + amount - t.seats[i].bet &&
      r.value.seats[i].bet == amount && r.value.seats[i].chips == t.seats[i].chips - amount &&
      forall j :: 0 <= j < |t.seats| && j != i ==> Stake(r.value.seats[j]) == Stake(t.seats[j])
  {
    var i := t.current;
    var after := Paid(t.seats[i], amount).0;
    UpdateKeepsActive(t.seats, i, after);
    var u := t.(seats := t.seats[i := after], pot := t.pot + amount - t.seats[i].bet, currentBet := after.bet);
    assert Bet(t, i, amount) == Some(Rotate(u));
    RotateToNext(u);
    RotateKeepsStakes(u);
  }

  /**
   * With both blinds covered and allowed by the bet rule, `initialize_round` posts them: the
   * dealer's bet is the small blind, the next player's the big blind, each paid in full from
   * the chips, and the turn passes to the player after the big blind.
   */
  lemma BlindsPosted(t: Table, small: int, big: int)
    requires t.current < |t.seats| && HasDealer(t.seats) && |t.seats| >= 2
    requires 0 <= small && 2 * t.currentBet <= small && 2 * small <= big
    requires forall j :: 0 <= j < |t.seats| ==> t.seats[j].chips >= big
    ensures var u := Opening(t); var r := OpenRound(t, small, big);
      r.Some? && r.value.currentBet == big && r.value.current == Next(1, |t.seats|) &&
      r.value.seats[0].bet == small && r.value.seats[0].chips == u.seats[0].chips - small &&
      r.value.seats[1].bet == big && r.value.seats[1].chips == u.seats[1].chips - big &&
      r.value.pot == (small - u.seats[0].bet) + (big - u.seats[1].bet)
  {
    var u := Opening(t);
    assert NoneFolded(u.seats);
    assert u.seats[0].chips >= big && u.seats[1].chips >= big;
    BlindsFromSeatZero(u, small, big);
  }

  /** Paying towards a bet carries the `made_action` mark through unchanged. */
  lemma PaidKeepsMark(s: Seat, amount: int, m: bool)
    ensures Paid(s.(madeAction := m), amount) == (Paid(s, amount).0.(madeAction := m), Paid(s, amount).1)
  {
  }

  /**
   * An allowed bet by the player holding the turn when the next seat has not folded: the seat
   * pays through `Paid` and is marked as acted, the pot gains the payment, `current_bet` becomes
   * the new bet and the turn moves one seat on.
   */
  lemma BetMovesOn(t: Table, amount: int)
    requires Ready(t) && amount >= 2 * t.currentBet && !t.seats[Next(t.current, |t.seats|)].folded
    ensures var c, p := t.current, Paid(t.seats[t.current], amount);
      Bet(t, c, amount) ==
        Some(Table(t.seats[c := p.0.(madeAction := true)], Next(c, |t.seats|), p.0.bet, t.pot + p.1))
  {
    var c, p := t.current, Paid(t.seats[t.current], amount);
    BetSteps(t, c, amount);
    var u := t.(seats := t.seats[c := p.0], pot := t.pot + p.1, currentBet := p.0.bet);
    RotateToNext(u);
    assert Rotate(u).seats == t.seats[c := p.0.(madeAction := true)];
  }

  /**
   * The blinds posted from the dealer's seat 0 when nobody has folded, whatever the stacks: the
   * dealer pays towards the small blind and the next player towards the big blind, each through
   * `Paid` (in full, or all in when short); the pot gains both payments, `current_bet` becomes the
   * big blind's bet, both are left marked as not having acted and no other seat changes.
   */
  lemma BlindsPaid(u: Table, small: int, big: int)
    requires Ready(u) && u.current == 0 && NoneFolded(u.seats) && |u.seats| >= 2
    ensures var r, s0, s1 := Blinds(u, small, big), Paid(u.seats[0], small), Paid(u.seats[1], big);
      r.Some? ==>
        r.value == Table(u.seats[0 := s0.0.(madeAction := false)][1 := s1.0.(madeAction := false)],
          Next(1, |u.seats|), s1.0.bet, u.pot + s0.1 + s1.1)
  {
    var s0, s1 := Paid(u.seats[0], small), Paid(u.seats[1], big);
    BlindsSteps(u, small, big);
    if small >= 2 * u.currentBet {
      BetMovesOn(u, small);
      var v := Bet(u, 0, small).value;
      if big >= 2 * v.currentBet {
        assert v.current == 1 && v.seats[1] == u.seats[1];
        BetMovesOn(v, big);
        var w := Bet(v, 1, big).value;
        assert w.seats == u.seats[0 := s0.0.(madeAction := true)][1 := s1.0.(madeAction := true)];
        var r := Unmark(w, 0, 1);
        assert Blinds(u, small, big) == Some(r);
        UnmarkFirstTwo(u.seats, s0.0, s1.0);
        assert r.current == Next(1, |u.seats|) && r.currentBet == s1.0.bet && r.pot == u.pot + s0.1 + s1.1;
      }
    }
  }

  /** Unmarking the first two seats after both were marked leaves them unmarked and the rest alone. */
  lemma UnmarkFirstTwo(xs: seq<Seat>, a: Seat, b: Seat)
    requires |xs| >= 2
    ensures var w := xs[0 := a.(madeAction := true)][1 := b.(madeAction := true)];
      w[0 := w[0].(madeAction := false)][1 := w[1].(madeAction := false)] ==
        xs[0 := a.(madeAction := false)][1 := b.(madeAction := false)]
  {
    var w := xs[0 := a.(madeAction := true)][1 := b.(madeAction := true)];
    var l, r := w[0 := w[0].(madeAction := false)][1 := w[1].(madeAction := false)],
      xs[0 := a.(madeAction := false)][1 := b.(madeAction := false)];
    forall j | 0 <= j < |xs| ensures l[j] == r[j] {
      if j >= 2 {
        assert l[j] == w[j] == xs[j];
      }
    }
  }

  /** Alone at the table, the dealer posts both blinds, paying towards the big blind on top of the small. */
  lemma BlindsAlone(u: Table, small: int, big: int)
    requires Ready(u) && u.current == 0 && |u.seats| == 1 && !u.seats[0].folded
    ensures var r, s0 := Blinds(u, small, big), Paid(u.seats[0], small);
      r.Some? ==>
        var s1 := Paid(s0.0, big);
        r.value.seats == [s1.0.(madeAction := false)] &&
        r.value.pot == u.pot + s0.1 + s1.1 && r.value.currentBet == s1.0.bet && r.value.current == 0
  {
    var s0 := Paid(u.seats[0], small);
    BlindsSteps(u, small, big);
    if small >= 2 * u.currentBet {
      BetMovesOn(u, small);
      var v := Bet(u, 0, small).value;
      if big >= 2 * v.currentBet {
        BetMovesOn(v, big);
        PaidKeepsMark(s0.0, big, true);
      }
    }
  }

  /**
   * `initialize_round` posting the blinds, whatever the stacks: the dealer, first after the turn
   * to the dealer, pays towards the small blind and the next player towards the big blind, the
   * empty pot gains both payments and `current_bet` becomes the big blind's bet; the turn passes
   * to the player after the big blind and no other seat changes.
   */
  lemma OpenRoundPosted(t: Table, small: int, big: int)
    requires t.current < |t.seats| && HasDealer(t.seats) && |t.seats| >= 2
    requires OpenRound(t, small, big).Some?
    ensures var u := Opening(t); var s0, s1 := Paid(u.seats[0], small), Paid(u.seats[1], big);
      OpenRound(t, small, big).value ==
        Table(u.seats[0 := s0.0.(madeAction := false)][1 := s1.0.(madeAction := false)],
          Next(1, |t.seats|), s1.0.bet, s0.1 + s1.1)
  {
    BlindsPaid(Opening(t), small, big);
  }

  lemma BlindsFromSeatZero(u: Table, small: int, big: int)
    requires Ready(u) && u.current == 0 && |u.seats| >= 2 && NoneFolded(u.seats) && u.pot == 0
    requires 0 <= small && 2 * u.currentBet <= small && 2 * small <= big
    requires u.seats[0].chips >= big && u.seats[1].chips >= big
    ensures var r := Blinds(u, small, big);
      r.Some? && r.value.currentBet == big && r.value.current == Next(1, |u.seats|) &&
      r.value.seats[0].bet == small && r.value.seats[0].chips == u.seats[0].chips - small &&
      r.value.seats[1].bet == big && r.value.seats[1].chips == u.seats[1].chips - big &&
      r.value.pot == (small - u.seats[0].bet) + (big - u.seats[1].bet)
  {
    CoveredBetMovesOn(u, small);
    var v := Bet(u, 0, small).value;
    CoveredBetMovesOn(v, big);
    var w := Bet(v, 1, big).value;
    var r := Unmark(w, 0, 1);
    assert Stake(r.seats[0]) == Stake(w.seats[0]) && Stake(r.seats[1]) == Stake(w.seats[1]);
    assert Stake(w.seats[0]) == Stake(v.seats[0]) && Stake(v.seats[1]) == Stake(u.seats[1]);
    assert Blinds(u, small, big) == Some(r);
  }

  /**
   * The part of `next_betting_round` after the board and the settlement (main.py:182-193): the
   * list is turned to the dealer, every bet is set to 0 through the setter and every fold is
   * undone, `current_bet` becomes 0, and the turn moves one seat on while the player who held
   * it is marked as not having acted. No other `made_action` mark is cleared.
   */
  function NewStreet(t: Table): (r: Table)
    requires t.current < |t.seats| && HasDealer(t.seats)
    ensures |r.seats| == |t.seats| && r.currentBet == 0 && r.pot == t.pot
  {
    var u := ToDealer(t);
    var v := u.(seats := Cleared(u.seats), currentBet := 0);
    var d := v.current;
    assert Ready(v) by { assert !v.seats[0].folded; }
    var w := Rotate(v);
    w.(seats := w.seats[d := w.seats[d].(madeAction := false)])
  }

  /**
   * What a new street promises: the dealer leads the list, no bet and no fold is left, the
   * chips stay, `total_bet` loses the bet the setter clears, the turn is one seat after the
   * player who held it, and only that player's `made_action` mark changes, to false.
   */
  lemma NewStreetSpec(t: Table)
    requires t.current < |t.seats| && HasDealer(t.seats)
    ensures var r, u := NewStreet(t), ToDealer(t);
      r.seats[0].dealer && r.current == Next(u.current, |t.seats|) && !r.seats[u.current].madeAction &&
      forall k :: 0 <= k < |r.seats| ==>
        r.seats[k].bet == 0 && !r.seats[k].folded && r.seats[k].chips == u.seats[k].chips &&
        r.seats[k].totalBet == u.seats[k].totalBet - (if u.seats[k].bet > 0 then u.seats[k].bet else 0) &&
        (k != u.current ==> r.seats[k].madeAction == u.seats[k].madeAction)
  {
    var u := ToDealer(t);
    var v := u.(seats := Cleared(u.seats), currentBet := 0);
    assert !v.seats[0].folded && !v.seats[Next(v.current, |v.seats|)].folded;
    RotateThenUnmark(v);
  }

  /**
   * Rotating a table whose next seat has not folded, then clearing the mark of the player who
   * held the turn, changes nothing but the turn and that player's `made_action`, which ends false.
   */
  lemma RotateThenUnmark(v: Table)
    requires Ready(v) && !v.seats[Next(v.current, |v.seats|)].folded
    ensures var w := Rotate(v); var seats := w.seats[v.current := w.seats[v.current].(madeAction := false)];
      w.current == Next(v.current, |v.seats|) && |seats| == |v.seats| &&
      forall k :: 0 <= k < |seats| ==>
        seats[k] == if k == v.current then v.seats[k].(madeAction := false) else v.seats[k]
  {
    RotateToNext(v);
  }

  /** Every bet set to 0 through the setter and every fold undone (main.py:184-187). */
  function Cleared(seats: seq<Seat>): (r: seq<Seat>)
    ensures |r| == |seats|
    ensures forall k :: 0 <= k < |seats| ==>
      r[k].bet == 0 && !r[k].folded && r[k].chips == seats[k].chips && r[k].dealer == seats[k].dealer &&
      r[k].madeAction == seats[k].madeAction &&
      r[k].totalBet == seats[k].totalBet - (if seats[k].bet > 0 then seats[k].bet else 0)
  {
    seq(|seats|, k requires 0 <= k < |seats| => AssignBet(seats[k], 0).(folded := false))
  }

  // ----- What the setter does to `total_bet` over a round -----

  predicate NoPositiveTotals(seats: seq<Seat>) {
    forall j :: 0 <= j < |seats| ==> seats[j].totalBet <= 0
  }

  /**
   * Since the setter only ever lowers `total_bet`, and `initialize_round` resets it to 0, no
   * action of the game ever makes a player's `total_bet` positive.
   */
  lemma ActionsKeepTotalsNonPositive(t: Table, i: nat, amount: int)
    requires Ready(t) && i < |t.seats| && NoPositiveTotals(t.seats)
    ensures Check(t, i).Some? ==> NoPositiveTotals(Check(t, i).value.seats)
    ensures Call(t, i).Some? ==> NoPositiveTotals(Call(t, i).value.seats)
    ensures Bet(t, i, amount).Some? ==> NoPositiveTotals(Bet(t, i, amount).value.seats)
    ensures NoPositiveTotals(Fold(t, i).seats)
  {
    RotateKeepsStakes(t);
  }

  lemma StreetKeepsTotalsNonPositive(t: Table)
    requires t.current < |t.seats| && HasDealer(t.seats) && NoPositiveTotals(t.seats)
    ensures NoPositiveTotals(NewStreet(t).seats)
  {
    var u := ToDealer(t);
    assert NoPositiveTotals(u.seats);
    NewStreetSpec(t);
  }

  /** A bet changes no fold and, from non-positive totals, makes none positive. */
  lemma BetKeepsTotals(t: Table, i: nat, amount: int)
    requires Ready(t) && i < |t.seats| && NoPositiveTotals(t.seats) && NoneFolded(t.seats)
    requires Bet(t, i, amount).Some?
    ensures NoPositiveTotals(Bet(t, i, amount).value.seats) && NoneFolded(Bet(t, i, amount).value.seats)
  {
  }

  /** A successful `initialize_round` leaves nobody folded and no positive `total_bet`. */
  lemma OpenRoundTotals(t: Table, small: int, big: int)
    requires t.current < |t.seats| && HasDealer(t.seats) && OpenRound(t, small, big).Some?
    ensures NoPositiveTotals(OpenRound(t, small, big).value.seats)
    ensures NoneFolded(OpenRound(t, small, big).value.seats)
  {
    var u := Opening(t);
    assert NoPositiveTotals(u.seats) && NoneFolded(u.seats);
    BetKeepsTotals(u, 0, small);
    var v := Bet(u, 0, small).value;
    BetKeepsTotals(v, v.current, big);
    var w := Bet(v, v.current, big).value;
    var r := Unmark(w, 0, v.current);
    forall j | 0 <= j < |r.seats| ensures r.seats[j].totalBet <= 0 && !r.seats[j].folded {
      assert Stake(r.seats[j]) == Stake(w.seats[j]);
    }
    assert Blinds(u, small, big) == Some(r);
  }
}
