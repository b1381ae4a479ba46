/**
 * The classes `Player` and `Game` of main.py, updated in place. Every method is proved
 * against the value model: the table a `Game` holds (`View`) after a method is the table the
 * matching function of `Betting` or `Settlement` computes from the table before.
 */
module Engine {
  import opened Wrappers
  import opened Sequences
  import opened Cards
  import opened Evaluator
  import opened Decks
  import opened Betting
  import opened Settlement

  /** A player of main.py:5-25. */
  class Player {
    var name: string
    var hand: seq<Card>
    var chips: int
    /** `_bet`, read through the `bet` property. */
    var bet: int
    var dealer: bool
    var madeAction: bool
    var folded: bool
    var totalBet: int

    /** `Player(name)` (main.py:6-14): no cards, no chips, no bet, not dealing, not acted, not folded. */
    constructor (name: string)
      ensures this.name == name && State() == Seat([], 0, 0, 0, false, false, false)
    {
      this.name := name;
      hand := [];
      chips := 0;
      bet := 0;
      dealer := false;
      madeAction := false;
      folded := false;
      totalBet := 0;
    }

    /** The player's fields as a value. */
    function State(): Seat
      reads this
    {
      Seat(hand, chips, bet, totalBet, dealer, madeAction, folded)
    }

    /** The `bet` setter (main.py:20-25). */
    method SetBet(value: int)
      modifies this
      ensures State() == AssignBet(old(State()), value) && name == old(name)
    {
      var difference := value - bet;
      if difference < 0 {
        totalBet := totalBet + difference;
      }
      bet := value;
    }
  }

  /** `players.index(p)` (main.py:168): the first position holding `p`. */
  function Position(ps: seq<Player>, p: Player): (i: nat)
    requires p in ps
    ensures i < |ps| && ps[i] == p && forall j :: 0 <= j < i ==> ps[j] != p
  {
    if ps[0] == p then 0 else Position(ps[1..], p) + 1
  }

  /** In a list without repeats, the position of the player at `k` is `k`. */
  lemma PositionOfDistinct(ps: seq<Player>, k: nat)
    requires Distinct(ps) && k < |ps|
    ensures Position(ps, ps[k]) == k
  {
  }

  /** The fields of the players `ps`, in list order. */
  function SeatsOf(ps: seq<Player>): (s: seq<Seat>)
    reads ps
    ensures |s| == |ps| && forall j :: 0 <= j < |ps| ==> s[j] == ps[j].State()
  {
    seq(|ps|, j reads ps requires 0 <= j < |ps| => ps[j].State())
  }

  /**
   * What `initialize_game` does to the players: everybody's chips become `chips`; a table with
   * a dealer keeps its dealers, and a table without one gets exactly one. Nothing else changes.
   */
  predicate Dealing(before: seq<Seat>, after: seq<Seat>, chips: int) {
    |after| == |before| && HasDealer(after) &&
    (forall j :: 0 <= j < |before| ==> after[j] == before[j].(chips := chips, dealer := after[j].dealer)) &&
    (HasDealer(before) ==> forall j :: 0 <= j < |before| ==> after[j].dealer == before[j].dealer) &&
    (!HasDealer(before) ==>
      exists d :: 0 <= d < |before| && after[d].dealer && forall j :: 0 <= j < |before| && after[j].dealer ==> j == d)
  }

  /**
   * The first step of `initialize_game`: a table with a dealer is kept as it is, and a table
   * without one gets exactly one.
   */
  predicate Appointed(before: seq<Seat>, after: seq<Seat>) {
    |after| == |before| && HasDealer(after) &&
    (forall j :: 0 <= j < |before| ==> after[j] == before[j].(dealer := after[j].dealer)) &&
    (HasDealer(before) ==> after == before) &&
    (!HasDealer(before) ==>
      exists d :: 0 <= d < |before| && after[d].dealer && forall j :: 0 <= j < |before| && after[j].dealer ==> j == d)
  }

  /** Making seat `d` of a table without a dealer the dealer appoints exactly one. */
  lemma AppointOne(s0: seq<Seat>, d: nat)
    requires d < |s0| && !HasDealer(s0)
    ensures Appointed(s0, s0[d := s0[d].(dealer := true)])
  {
    var s1 := s0[d := s0[d].(dealer := true)];
    assert s1[d].dealer;
  }

  /** A table that has a dealer is left as it is. */
  lemma AppointNone(s0: seq<Seat>)
    requires HasDealer(s0)
    ensures Appointed(s0, s0)
  {
  }

  lemma DealingHolds(s0: seq<Seat>, s1: seq<Seat>, s2: seq<Seat>, chips: int)
    requires Appointed(s0, s1) && |s2| == |s1|
    requires forall j :: 0 <= j < |s1| ==> s2[j] == s1[j].(chips := chips)
    ensures Dealing(s0, s2, chips)
  {
    var d :| 0 <= d < |s1| && s1[d].dealer;
    assert s2[d].dealer;
    forall j | 0 <= j < |s0|
      ensures s2[j] == s0[j].(chips := chips, dealer := s2[j].dealer)
    {
      assert s1[j] == s0[j].(dealer := s1[j].dealer);
    }
    if HasDealer(s0) {
      assert s1 == s0;
    } else {
      var e :| 0 <= e < |s0| && s1[e].dealer && forall j :: 0 <= j < |s0| && s1[j].dealer ==> j == e;
      assert s2[e].dealer;
      forall j | 0 <= j < |s0| && s2[j].dealer
        ensures j == e
      {
        assert s1[j].dealer;
      }
    }
  }

  /** The cards in the players' hands, player after player. */
  function Hands(seats: seq<Seat>): seq<Card>
    decreases |seats|
  {
    if seats == [] then [] else Hands(seats[..|seats| - 1]) + seats[|seats| - 1].hand
  }

  lemma HandsSnoc(seats: seq<Seat>, s: Seat)
    ensures Hands(seats + [s]) == Hands(seats) + s.hand
  {
    assert (seats + [s])[..|seats|] == seats;
  }

  /** Hands dealt from a deck without repeats repeat no card and leave none of theirs in the deck. */
  lemma FreshHands(deck: seq<Card>, seats: seq<Seat>, rest: seq<Card>)
    requires multiset(Hands(seats)) + multiset(rest) == multiset(deck)
    ensures Distinct(deck) ==> Distinct(Hands(seats)) && forall c :: c in Hands(seats) ==> c !in rest
  {
    if Distinct(deck) {
      DrawnCardsAreFresh(deck, Hands(seats), rest);
    }
  }

  /**
   * `cur` is `start` with the first `|done|` seats replaced by `done`, each of them `start`'s
   * seat with a two-card hand.
   */
  ghost predicate DealtUpTo(start: seq<Seat>, cur: seq<Seat>, done: seq<Seat>)
  {
    |done| <= |start| == |cur| &&
    (forall j :: 0 <= j < |start| ==> cur[j] == if j < |done| then done[j] else start[j]) &&
    forall j :: 0 <= j < |done| ==> done[j] == start[j].(hand := done[j].hand) && |done[j].hand| == 2
  }

  lemma DealtStep(start: seq<Seat>, cur: seq<Seat>, done: seq<Seat>, cards: seq<Card>)
    requires DealtUpTo(start, cur, done) && |done| < |start| && |cards| == 2
    ensures DealtUpTo(start, cur[|done| := cur[|done|].(hand := cards)], done + [cur[|done|].(hand := cards)])
  {
  }

  lemma DealtAll(start: seq<Seat>, cur: seq<Seat>, done: seq<Seat>)
    requires DealtUpTo(start, cur, done) && |done| == |start|
    ensures cur == done
  {
  }

  /** `xs` is the list `ps` turned `m` places to the left: the element `m` places on leads it. */
  ghost predicate Turned<T>(ps: seq<T>, xs: seq<T>, m: nat) {
    m < |ps| == |xs| && forall k :: 0 <= k < |ps| ==> xs[k] == ps[At(m, k, |ps|)]
  }

  /** Moving the first player to the back turns the list one place further. */
  lemma TurnStep<T>(ps: seq<T>, xs: seq<T>, m: nat)
    requires Turned(ps, xs, m) && m + 1 < |ps|
    ensures Turned(ps, xs[1..] + [xs[0]], m + 1)
  {
    var n, ys := |ps|, xs[1..] + [xs[0]];
    forall k | 0 <= k < n ensures ys[k] == ps[At(m + 1, k, n)] {
      if k + 1 < n {
        assert ys[k] == xs[k + 1];
      } else {
        assert ys[k] == xs[0];
      }
    }
  }

  /** Turning a list keeps its elements pairwise different, and `ps[j]` moves to `Offset(m, j, n)`. */
  lemma TurnedDistinct<T>(ps: seq<T>, xs: seq<T>, m: nat)
    requires Turned(ps, xs, m) && Distinct(ps)
    ensures Distinct(xs)
    ensures forall j :: 0 <= j < |ps| ==> xs[Offset(m, j, |ps|)] == ps[j]
  {
    var n := |ps|;
    forall i, j | 0 <= i < j < n ensures xs[i] != xs[j] {
      assert Offset(m, At(m, i, n), n) == i && Offset(m, At(m, j, n), n) == j;
    }
  }

  /** The seats of a list turned to its first dealer are the table turned to that dealer. */
  lemma TurnedView(ps: seq<Player>, xs: seq<Player>, t: Table)
    requires Distinct(ps) && t.current < |ps| && t.seats == SeatsOf(ps) && HasDealer(t.seats)
    requires Turned(ps, xs, FirstDealer(t.seats, 0))
    ensures Distinct(xs) && ps[t.current] in xs
    ensures Table(SeatsOf(xs), Position(xs, ps[t.current]), t.currentBet, t.pot) == ToDealer(t)
  {
    var d, n := FirstDealer(t.seats, 0), |ps|;
    TurnedDistinct(ps, xs, d);
    PositionOfDistinct(xs, Offset(d, t.current, n));
    TurnedSeats(ps, xs, d);
  }

  /** The seats of a turned list are the seats of the list, turned. */
  lemma TurnedSeats(ps: seq<Player>, xs: seq<Player>, m: nat)
    requires Turned(ps, xs, m)
    ensures forall k :: 0 <= k < |ps| ==> SeatsOf(xs)[k] == SeatsOf(ps)[At(m, k, |ps|)]
  {
  }

  /** `Opening` is the reset followed by the turn to the dealer and the turn given to seat 0. */
  lemma OpeningSteps(t: Table)
    requires t.current < |t.seats| && HasDealer(t.seats)
    ensures HasDealer(Reset(t.seats)) && FirstDealer(Reset(t.seats), 0) == FirstDealer(t.seats, 0)
    ensures Opening(t) == ToDealer(t.(seats := Reset(t.seats), pot := 0)).(current := 0)
  {
    SameDealers(t.seats, Reset(t.seats));
  }

  /** Handing out cards changes no dealer flag. */
  lemma NewHandsKeepDealer(before: seq<Seat>, after: seq<Seat>)
    requires |after| == |before| && forall j :: 0 <= j < |before| ==> after[j] == before[j].(hand := after[j].hand)
    ensures HasDealer(before) ==> HasDealer(after)
  {
    if HasDealer(before) {
      SameDealers(before, after);
    }
  }

  /**
   * What posting the blinds from the dealer's seat leaves: the opened round when both are
   * accepted, else the table as it stood when a blind was refused.
   */
  function BlindsOutcome(u: Table, small: int, big: int): (r: (bool, Table))
    requires Ready(u) && u.current == 0
    ensures r.0 == Blinds(u, small, big).Some?
    ensures r.0 ==> r.1 == Blinds(u, small, big).value
    ensures small < 2 * u.currentBet ==> r.1 == u
    ensures !r.0 && small >= 2 * u.currentBet ==> r.1 == Betting.Bet(u, 0, small).value
  {
    var sb := Betting.Bet(u, 0, small);
    if sb.None? then (false, u)
    else
      match Blinds(u, small, big)
      case None => (false, sb.value)
      case Some(v) => (true, v)
  }

  /**
   * The seats `after` are the seats `before` given hands from the refilled deck, of which `rest`
   * is left. When its 52 cards serve every player two, each player has two, no card is dealt
   * twice and the deck keeps exactly the others; otherwise the deal broke off, each player
   * keeping the old hand or a new one, with the deck empty.
   */
  ghost predicate DealtFrom(before: seq<Seat>, after: seq<Seat>, rest: seq<Card>) {
    |after| == |before| &&
    (forall j :: 0 <= j < |before| ==> after[j] == before[j].(hand := after[j].hand)) &&
    (2 * |before| <= 52 ==>
      (forall j :: 0 <= j < |before| ==> |after[j].hand| == 2) &&
      Distinct(Hands(after)) && multiset(Hands(after)) + multiset(rest) == multiset(FullDeck())) &&
    (2 * |before| > 52 ==> rest == [])
  }

  /** `round_win_info`: each recorded share with the player it names, in order. */
  function WinInfo(ps: seq<Player>, earned: seq<(int, (nat, string))>): (r: seq<(int, (Player, string))>)
    requires forall e :: e in earned ==> e.1.0 < |ps|
    ensures |r| == |earned|
  {
    seq(|earned|, k requires 0 <= k < |earned| => (earned[k].0, (ps[earned[k].1.0], earned[k].1.1)))
  }

  /** The steps of `NewStreet`, one after the other. */
  lemma NewStreetSteps(t: Table)
    requires t.current < |t.seats| && HasDealer(t.seats)
    ensures var u := ToDealer(t); var v := u.(seats := Cleared(u.seats), currentBet := 0);
      Ready(v) && NewStreet(t) == var w := Rotate(v); w.(seats := w.seats[v.current := w.seats[v.current].(madeAction := false)])
  {
    var u := ToDealer(t);
    assert !Cleared(u.seats)[0].folded;
  }

  /**
   * The first part of `next_betting_round` (main.py:175-180), from the fixtures `f0`, the table
   * `t0` of the players `ps` and the deck `cards0` to the fixtures `f`, the table `t` and the deck
   * `rest`. Before the river, three cards (on an empty board) or one card join the board from
   * the deck, or the draw raises, emptying the deck and leaving the board. On a full board the
   * round is settled: the credited seats, `round_win_info` and the end of the round, or, when an
   * evaluation raises, nothing changed.
   */
  ghost predicate BoardStep(f0: Fixtures, t0: Table, cards0: seq<Card>, ps: seq<Player>,
                            ok: bool, f: Fixtures, t: Table, rest: seq<Card>)
  {
    |ps| == |t0.seats| && f == f0.(board := f.board, roundEnded := f.roundEnded, roundWinInfo := f.roundWinInfo) &&
    if |f0.board| < 5 then
      var n := if |f0.board| == 0 then 3 else 1;
      t == t0 && f.roundEnded == f0.roundEnded && f.roundWinInfo == f0.roundWinInfo &&
      (ok <==> n <= |cards0|) &&
      (ok ==>
        |f.board| == |f0.board| + n && f.board[..|f0.board|] == f0.board &&
        multiset(f.board) + multiset(rest) == multiset(f0.board) + multiset(cards0)) &&
      (!ok ==> f.board == f0.board && rest == [])
    else
      var r := Settle(t0.seats, f0.board);
      f.board == f0.board && rest == cards0 && (ok <==> r.Some?) &&
      (ok ==> t == t0.(seats := r.value.0) && f.roundEnded && f.roundWinInfo == WinInfo(ps, r.value.1)) &&
      (!ok ==> t == t0 && f.roundEnded == f0.roundEnded && f.roundWinInfo == f0.roundWinInfo)
  }

  /** The seats after `g` steps of `rotate_player` from seat `c`, each step marking the seat it leaves. */
  function Marked(seats: seq<Seat>, c: nat, g: nat): (r: seq<Seat>)
    requires c < |seats| && g <= |seats|
    ensures |r| == |seats|
    ensures forall j :: 0 <= j < |seats| ==> r[j] == seats[j].(madeAction := r[j].madeAction)
  {
    if g == 0 then seats
    else
      var p := Marked(seats, c, g - 1);
      var j := At(c, g - 1, |seats|);
      p[j := p[j].(madeAction := true)]
  }

  /** After `g` steps, exactly the seats less than `g` places after `c` are marked. */
  lemma {:induction false} MarkedWindow(seats: seq<Seat>, c: nat, g: nat)
    requires c < |seats| && g <= |seats|
    ensures forall j :: 0 <= j < |seats| ==>
      Marked(seats, c, g)[j] == if Offset(c, j, |seats|) < g then seats[j].(madeAction := true) else seats[j]
  {
    if g > 0 {
      MarkedWindow(seats, c, g - 1);
      var n := |seats|;
      assert Offset(c, At(c, g - 1, n), n) == g - 1;
    }
  }

  /** One step from the seat `g` places after `c` reaches the seat `g + 1` places after it. */
  lemma StepAt(c: nat, g: nat, n: nat)
    requires c < n && g < n
    ensures Next(At(c, g, n), n) == At(c, g + 1, n)
  {
  }

  /** Every seat 1 to `g` places after `c` has folded. */
  predicate FoldedRun(seats: seq<Seat>, c: nat, g: nat)
    requires c < |seats| && g <= |seats|
  {
    forall m :: 1 <= m <= g ==> seats[At(c, m, |seats|)].folded
  }

  /** A folded seat one place further extends the run of folded seats. */
  lemma FoldedStep(seats: seq<Seat>, c: nat, g: nat)
    requires c < |seats| && g < |seats| && FoldedRun(seats, c, g)
    requires seats[At(c, g + 1, |seats|)].folded
    ensures FoldedRun(seats, c, g + 1)
  {
  }

  /** While every seat stepped onto has folded, the loop has not yet reached the gap. */
  lemma GapBeyond(seats: seq<Seat>, c: nat, g: nat)
    requires c < |seats| && SomeActive(seats) && 1 <= g <= |seats| && FoldedRun(seats, c, g)
    ensures g < Gap(seats, c, 1)
  {
  }

  /** `rotate_player` stops after `g` steps exactly when `g` is the gap `Rotate` uses. */
  lemma RotateIsMarking(t: Table, g: nat)
    requires Ready(t) && 1 <= g <= |t.seats|
    requires FoldedRun(t.seats, t.current, g - 1)
    requires !t.seats[At(t.current, g, |t.seats|)].folded
    ensures Rotate(t) == Table(Marked(t.seats, t.current, g), At(t.current, g, |t.seats|), t.currentBet, t.pot)
  {
    assert Gap(t.seats, t.current, 1) == g;
    MarkedWindow(t.seats, t.current, g);
  }

  /** The fields of a `Game` apart from the players, the turn, `current_bet` and `pot`. */
  datatype Fixtures = Fixtures(deck: Deck, chips: int, smallBlind: int, bigBlind: int, board: seq<Card>,
                         roundEnded: bool, roundWinInfo: seq<(int, (Player, string))>)

  /** A game of main.py:31-193. */
  class Game {
    var players: seq<Player>
    /** `current_player`, a member of `players`. */
    var current: Player
    const deck: Deck
    var chips: int
    var smallBlind: int
    var bigBlind: int
    var board: seq<Card>
    var roundEnded: bool
    /** `round_win_info`: the `earnings` dictionary of the last settlement, in insertion order. */
    var roundWinInfo: seq<(int, (Player, string))>
    var currentBet: int
    var pot: int

    /** The fields that betting never touches. */
    function Setup(): Fixtures
      reads this
    {
      Fixtures(deck, chips, smallBlind, bigBlind, board, roundEnded, roundWinInfo)
    }

    /** The players are distinct objects and one of them holds the turn. */
    predicate Valid()
      reads this
    {
      |players| > 0 && Distinct(players) && current in players
    }

    /**
     * `Game(players, chips)` (main.py:32-44) with a whole-number small blind: a fresh deck, an
     * empty board, no bet and an empty pot, after `initialize_game`. The turn is given to the
     * first player; main.py leaves `current_player` unset until `initialize_round`.
     */
    constructor (players: seq<Player>, chips: int, smallBlind: int)
      requires |players| > 0 && Distinct(players)
      modifies players
      ensures Valid() && HasDealer(Seats()) && this.players == players && current == players[0]
      ensures fresh(deck) && deck.cards == FullDeck()
      ensures this.chips == chips && this.smallBlind == smallBlind && bigBlind == 2 * smallBlind
      ensures board == [] && !roundEnded && roundWinInfo == [] && currentBet == 0 && pot == 0
      ensures Dealing(old(SeatsOf(players)), Seats(), chips)
    {
      ghost var s0 := SeatsOf(players);
      this.players := players;
      current := players[0];
      deck := new Deck();
      this.chips := chips;
      this.smallBlind := smallBlind;
      bigBlind := 2 * smallBlind;
      board := [];
      roundEnded := false;
      roundWinInfo := [];
      currentBet := 0;
      pot := 0;
      new;
      assert Seats() == s0;
      InitializeGame();
    }

    /**
     * `initialize_game` (main.py:55-62): when nobody deals, a player chosen at random (any of
     * them) becomes the dealer; then every player gets the game's starting chips.
     */
    method InitializeGame()
      requires Valid()
      modifies players
      ensures HasDealer(Seats())
      ensures Dealing(old(Seats()), Seats(), chips)
    {
      ghost var s0 := Seats();
      AppointDealer();
      ghost var s1 := Seats();
      GiveChips();
      DealingHolds(s0, s1, Seats(), chips);
    }

    /** main.py:56-57. */
    method AppointDealer()
      requires Valid()
      modifies players
      ensures Appointed(old(Seats()), Seats())
    {
      ghost var s0 := Seats();
      if !(exists j :: 0 <= j < |players| && players[j].dealer) {
        var d :| 0 <= d < |players|;
        MakeDealer(d);
        AppointOne(s0, d);
      } else {
        AppointNone(s0);
      }
    }

    /** The player at position `d` becomes dealer. */
    method MakeDealer(d: nat)
      requires Valid() && d < |players|
      modifies players[d]
      ensures Seats() == old(Seats())[d := old(Seats())[d].(dealer := true)]
    {
      ghost var s0 := Seats();
      players[d].dealer := true;
      assert forall j :: 0 <= j < |players| ==> players[j].State() == s0[d := s0[d].(dealer := true)][j];
    }

    /** main.py:61-62. */
    method GiveChips()
      requires Valid()
      modifies players
      ensures forall j :: 0 <= j < |players| ==> Seats()[j] == old(Seats())[j].(chips := chips)
    {
      ghost var s1 := Seats();
      ghost var n := |players|;
      for k := 0 to |players|
        invariant forall j :: 0 <= j < n ==> players[j].State() == if j < k then s1[j].(chips := chips) else s1[j]
      {
        players[k].chips := chips;
      }
    }

    /** The players' fields, in list order. */
    function Seats(): (s: seq<Seat>)
      reads this, players
      ensures |s| == |players| && forall j :: 0 <= j < |players| ==> s[j] == players[j].State()
    {
      SeatsOf(players)
    }

    /** The betting state of the game as a value. */
    function View(): (t: Table)
      reads this, players
      requires current in players
      ensures t.seats == Seats() && t.currentBet == currentBet && t.pot == pot
      ensures t.current < |players| && players[t.current] == current
    {
      Table(Seats(), Position(players, current), currentBet, pot)
    }

    /**
     * `rotate_player` (main.py:165-172): mark the player holding the turn as having acted and
     * pass the turn on, round the list, until it reaches a player who has not folded. The loop
     * ends only when some player has not folded, which the precondition asks for.
     */
    method RotatePlayer()
      requires Valid() && SomeActive(Seats())
      modifies this, players
      ensures Valid() && players == old(players) && Setup() == old(Setup())
      ensures View() == Rotate(old(View()))
    {
      ghost var t := View();
      ghost var g := Walk(t);
      RotateIsMarking(t, g);
      assert View() == Table(Marked(t.seats, t.current, g), At(t.current, g, |t.seats|), t.currentBet, t.pot);
    }

    /**
     * The loop of `rotate_player` from the table `t`: it stops `g` seats on, at the first seat
     * that has not folded, every seat it left behind marked.
     */
    method Walk(ghost t: Table) returns (ghost g: nat)
      requires Valid() && SomeActive(Seats()) && t == View()
      modifies this, players
      ensures Arrived(t, old(Setup()), old(players), g)
    {
      ghost var fx, ps := Setup(), players;
      ghost var gap := Gap(t.seats, t.current, 1);
      g := 0;
      while true
        invariant Walking(t, fx, ps, g) && gap == Gap(t.seats, t.current, 1)
        decreases gap - g
      {
        Advance(t, fx, ps, g);
        g := g + 1;
        if !current.folded {
          break;
        }
      }
    }

    /** After `g` passes of the loop of `rotate_player` from seat `c` of the seats `seats`. */
    predicate Rotating(seats: seq<Seat>, c: nat, g: nat)
      reads this, players
    {
      Valid() && c < |seats| == |players| && g <= |players| &&
      Position(players, current) == At(c, g, |players|) && Seats() == Marked(seats, c, g)
    }

    /**
     * Inside the loop of `rotate_player` started on the table `t`, with the fixtures `fx` and the
     * players `ps`: after `g` passes, each stepping onto a folded seat.
     */
    predicate Walking(t: Table, fx: Fixtures, ps: seq<Player>, g: nat)
      reads this, players
    {
      players == ps && Setup() == fx && currentBet == t.currentBet && pot == t.pot && Ready(t) &&
      g < Gap(t.seats, t.current, 1) && FoldedRun(t.seats, t.current, g) && Rotating(t.seats, t.current, g)
    }

    /** The loop of `rotate_player` started on the table `t` has stopped after `g` passes. */
    predicate Arrived(t: Table, fx: Fixtures, ps: seq<Player>, g: nat)
      reads this, players
    {
      players == ps && Setup() == fx && currentBet == t.currentBet && pot == t.pot && Ready(t) &&
      1 <= g <= |t.seats| && FoldedRun(t.seats, t.current, g - 1) &&
      !t.seats[At(t.current, g, |t.seats|)].folded && Rotating(t.seats, t.current, g)
    }

    /** Pass `g + 1` of the loop of `rotate_player` started on the table `t`. */
    method Advance(ghost t: Table, ghost fx: Fixtures, ghost ps: seq<Player>, ghost g: nat)
      requires Walking(t, fx, ps, g)
      modifies this, players
      ensures current.folded ==> Walking(t, fx, ps, g + 1)
      ensures !current.folded ==> Arrived(t, fx, ps, g + 1)
    {
      ghost var seats, c, n := t.seats, t.current, |players|;
      PassTurn();
      StepAt(c, g, n);
      ghost var here := At(c, g + 1, n);
      assert Seats() == Marked(seats, c, g + 1);
      assert current == players[here] && Seats()[here] == current.State();
      if current.folded {
        FoldedStep(seats, c, g);
        GapBeyond(seats, c, g + 1);
      }
    }

    /** One pass of the loop of `rotate_player` (main.py:167-170). */
    method PassTurn()
      requires Valid()
      modifies this, players
      ensures Valid() && players == old(players) && Setup() == old(Setup())
      ensures currentBet == old(currentBet) && pot == old(pot)
      ensures var i := old(Position(players, current));
        Position(players, current) == Next(i, |players|) &&
        Seats() == old(Seats())[i := old(Seats())[i].(madeAction := true)]
    {
      ghost var s0 := Seats();
      ghost var i0 := Position(players, current);
      current.madeAction := true;
      ghost var s1 := s0[i0 := s0[i0].(madeAction := true)];
      assert forall j :: 0 <= j < |players| ==> players[j].State() == s1[j];
      var i := Position(players, current);
      var next := if i + 1 == |players| then 0 else i + 1;
      current := players[next];
      PositionOfDistinct(players, next);
      assert Seats() == s1;
    }

    /**
     * `check` (main.py:124-128): the turn moves on when the player's bet matches
     * `current_bet`; otherwise the ValueError, with nothing changed.
     */
    method Check(player: Player) returns (ok: bool)
      requires Valid() && SomeActive(Seats()) && player in players
      modifies this, players
      ensures Valid() && players == old(players) && Setup() == old(Setup())
      ensures var r := Betting.Check(old(View()), old(Position(players, player)));
        ok == r.Some? && View() == if ok then r.value else old(View())
    {
      if player.bet == currentBet {
        RotatePlayer();
        ok := true;
      } else {
        ok := false;
      }
    }

    /**
     * `call` (main.py:130-143): a player whose bet is below `current_bet` pays up to it, or
     * goes all in when short; the payment goes to the pot and the turn moves on.
     */
    method Call(player: Player) returns (ok: bool)
      requires Valid() && SomeActive(Seats()) && player in players
      modifies this, players
      ensures Valid() && players == old(players) && Setup() == old(Setup())
      ensures var r := Betting.Call(old(View()), old(Position(players, player)));
        ok == r.Some? && View() == if ok then r.value else old(View())
    {
      if player.bet < currentBet {
        ghost var t := View();
        ghost var i := Position(players, player);
        Pay(player, currentBet);
        CallSteps(t, i);
        assert View() == t.(seats := t.seats[i := Paid(t.seats[i], t.currentBet).0], pot := t.pot + Paid(t.seats[i], t.currentBet).1);
        RotatePlayer();
        ok := true;
      } else {
        ok := false;
      }
    }

    /**
     * `bet` (main.py:145-159): an amount of at least double `current_bet` is paid in full, or
     * all in when short; the pot grows by the payment, `current_bet` becomes the player's new
     * bet and the turn moves on.
     */
    method Bet(player: Player, amount: int) returns (ok: bool)
      requires Valid() && SomeActive(Seats()) && player in players
      modifies this, players
      ensures Valid() && players == old(players) && Setup() == old(Setup())
      ensures var r := Betting.Bet(old(View()), old(Position(players, player)), amount);
        ok == r.Some? && View() == if ok then r.value else old(View())
    {
      if amount >= currentBet * 2 {
        Stake(player, amount);
        RotatePlayer();
        ok := true;
      } else {
        ok := false;
      }
    }

    /** An allowed bet up to the point where the turn moves on: what is left is the rotation. */
    method Stake(player: Player, amount: int)
      requires Valid() && SomeActive(Seats()) && player in players && amount >= currentBet * 2
      modifies this, player
      ensures Valid() && players == old(players) && Setup() == old(Setup()) && SomeActive(Seats())
      ensures Betting.Bet(old(View()), old(Position(players, player)), amount) == Some(Rotate(View()))
    {
      ghost var t := View();
      ghost var i := Position(players, player);
      Raise(player, amount);
      BetSteps(t, i, amount);
      assert View() == t.(seats := t.seats[i := Paid(t.seats[i], amount).0], pot := t.pot + Paid(t.seats[i], amount).1,
                          currentBet := Paid(t.seats[i], amount).0.bet);
    }

    /** The part of `bet` before the turn moves on (main.py:147-156). */
    method Raise(player: Player, amount: int)
      requires Valid() && player in players
      modifies this, player
      ensures Valid() && players == old(players) && current == old(current) && Setup() == old(Setup())
      ensures var s := old(Seats()); var i := Position(players, player);
        Seats() == s[i := Paid(s[i], amount).0] && pot == old(pot) + Paid(s[i], amount).1 && currentBet == Paid(s[i], amount).0.bet
    {
      Pay(player, amount);
      currentBet := player.bet;
    }

    /**
     * The payment shared by `call` and `bet` (main.py:132-140 and 147-155): the player's seat
     * becomes what `Paid` computes and the pot gains the difference.
     */
    method Pay(player: Player, amount: int)
      requires Valid() && player in players
      modifies this, player
      ensures Valid() && players == old(players) && current == old(current) && Setup() == old(Setup()) && currentBet == old(currentBet)
      ensures var s := old(Seats()); var i := Position(players, player);
        Seats() == s[i := Paid(s[i], amount).0] && pot == old(pot) + Paid(s[i], amount).1 && player.bet == Paid(s[i], amount).0.bet
    {
      ghost var s0 := Seats();
      ghost var k := Position(players, player);
      var difference := Charge(player, amount);
      pot := pot + difference;
      PositionOfDistinct(players, k);
      assert forall j :: 0 <= j < |players| ==> players[j].State() == s0[k := player.State()][j];
    }

    /** The changes `Pay` makes to the paying player, returning what the pot gains. */
    method Charge(player: Player, amount: int) returns (difference: int)
      modifies player
      ensures (player.State(), difference) == Paid(old(player.State()), amount)
    {
      if player.chips >= amount {
        difference := amount - player.bet;
        player.SetBet(amount);
        player.chips := player.chips - amount;
      } else {
        difference := player.chips;
        player.SetBet(player.bet + player.chips);
        player.chips := 0;
      }
    }

    /** `fold` (main.py:161-163): the turn moves on first, then the player folds. */
    method Fold(player: Player)
      requires Valid() && SomeActive(Seats()) && player in players
      modifies this, players
      ensures Valid() && players == old(players) && Setup() == old(Setup())
      ensures View() == Betting.Fold(old(View()), old(Position(players, player)))
    {
      RotatePlayer();
      MarkFolded(player);
    }

    /** The player folds (main.py:163). */
    method MarkFolded(player: Player)
      requires Valid() && player in players
      modifies player
      ensures Seats() == old(Seats())[Position(players, player) := old(player.State()).(folded := true)]
    {
      ghost var s0 := Seats();
      ghost var k := Position(players, player);
      player.folded := true;
      PositionOfDistinct(players, k);
      assert forall j :: 0 <= j < |players| ==> players[j].State() == s0[k := player.State()][j];
    }

    /**
     * `deal` (main.py:51-53): each player in turn gets the two cards `draw(2)` pops from the
     * deck. When the deck runs short, `draw` raises: the `dealt` players before the one it failed
     * on keep their new hands, the others their old ones, and the deck is left empty. From a
     * deck without repeats, no card is dealt twice and none dealt is left in the deck.
     */
    method Deal() returns (ok: bool, ghost dealt: nat)
      requires Valid()
      modifies players, deck
      ensures dealt <= |players| && (ok <==> dealt == |players|)
      ensures ok <==> 2 * |players| <= |old(deck.cards)|
      ensures forall j :: 0 <= j < |players| ==>
        Seats()[j] == old(Seats())[j].(hand := Seats()[j].hand) &&
        (j < dealt ==> |Seats()[j].hand| == 2) && (j >= dealt ==> Seats()[j] == old(Seats())[j])
      ensures ok ==> multiset(Hands(Seats())) + multiset(deck.cards) == multiset(old(deck.cards))
      ensures ok && Distinct(old(deck.cards)) ==>
        Distinct(Hands(Seats())) && forall c :: c in Hands(Seats()) ==> c !in deck.cards
      ensures !ok ==> deck.cards == []
    {
      ghost var s0, d0 := Seats(), deck.cards;
      ghost var done: seq<Seat> := [];
      ghost var cur := s0;
      var k := 0;
      while k < |players|
        invariant 0 <= k <= |players| && |done| == k && |deck.cards| == |d0| - 2 * k
        invariant Seats() == cur && |s0| == |players| && DealtUpTo(s0, cur, done)
        invariant multiset(Hands(done)) + multiset(deck.cards) == multiset(d0)
      {
        var drawn, cards := DealOne(k);
        if !drawn {
          ok, dealt := false, k;
          return;
        }
        ghost var next := cur[k].(hand := cards);
        HandsSnoc(done, next);
        DealtStep(s0, cur, done, cards);
        cur := cur[k := next];
        done := done + [next];
        k := k + 1;
      }
      ok, dealt := true, k;
      DealtAll(s0, cur, done);
      FreshHands(d0, done, deck.cards);
    }

    /** The player at position `k` is dealt two cards drawn from the deck (main.py:53). */
    method DealOne(k: nat) returns (drawn: bool, cards: seq<Card>)
      requires Valid() && k < |players|
      modifies players[k], deck
      ensures drawn <==> 2 <= |old(deck.cards)|
      ensures drawn ==> |cards| == 2 && |deck.cards| == |old(deck.cards)| - 2
      ensures drawn ==> multiset(cards) + multiset(deck.cards) == multiset(old(deck.cards))
      ensures drawn ==> Seats() == old(Seats())[k := old(Seats())[k].(hand := cards)]
      ensures !drawn ==> deck.cards == [] && Seats() == old(Seats())
    {
      ghost var d0 := deck.cards;
      drawn, cards := deck.Draw(2);
      if drawn {
        assert |multiset(cards)| + |multiset(deck.cards)| == |multiset(d0)|;
        GiveHand(k, cards);
      }
    }

    /** `player.hand = …` for the player at `k` (main.py:53). */
    method GiveHand(k: nat, cards: seq<Card>)
      requires Valid() && k < |players|
      modifies players[k]
      ensures Seats() == old(Seats())[k := old(Seats())[k].(hand := cards)]
    {
      ghost var s0 := Seats();
      players[k].hand := cards;
      assert forall j :: 0 <= j < |players| ==> players[j].State() == s0[k := s0[k].(hand := cards)][j];
    }

    /**
     * The list is turned one place at a time until a dealer leads (main.py:73-74 and 182-183).
     * Without a dealer the loop never ends, which the precondition rules out. The turn stays with
     * the same player.
     */
    method TurnToDealer()
      requires Valid() && HasDealer(Seats())
      modifies this
      ensures Valid() && current == old(current) && Setup() == old(Setup())
      ensures Turned(old(players), players, FirstDealer(old(Seats()), 0))
      ensures forall k :: 0 <= k < |players| ==> players[k] in old(players)
      ensures View() == ToDealer(old(View()))
    {
      ghost var t := View();
      TurnLoop();
      TurnedView(old(players), players, t);
    }

    /** The loop of `TurnToDealer`. */
    method TurnLoop()
      requires Valid() && HasDealer(Seats())
      modifies this
      ensures current == old(current) && Setup() == old(Setup()) && currentBet == old(currentBet) && pot == old(pot)
      ensures Turned(old(players), players, FirstDealer(old(Seats()), 0))
    {
      ghost var ps, s0 := players, Seats();
      ghost var d := FirstDealer(s0, 0);
      ghost var m := 0;
      var xs := players;
      assert Turned(ps, xs, 0);
      while !xs[0].dealer
        invariant Turned(ps, xs, m) && m <= d
        modifies {}
        decreases d - m
      {
        assert xs[0] == ps[At(m, 0, |ps|)] && !s0[m].dealer;
        TurnStep(ps, xs, m);
        xs := xs[1..] + [xs[0]];
        m := m + 1;
      }
      assert xs[0] == ps[At(m, 0, |ps|)] && s0[m].dealer;
      players := xs;
    }

    /** Every player's fold is undone and `total_bet` reset to 0 (main.py:69-71). */
    method ResetPlayers()
      requires Valid()
      modifies players
      ensures Seats() == Reset(old(Seats()))
    {
      ghost var s0 := Seats();
      ghost var n := |players|;
      for k := 0 to |players|
        invariant forall j :: 0 <= j < n ==> players[j].State() == if j < k then Reset(s0)[j] else s0[j]
      {
        players[k].folded := false;
        players[k].totalBet := 0;
      }
    }

    /** Every player's bet is set to 0 through the setter and every fold undone (main.py:185-187). */
    method ClearBets()
      requires Valid()
      modifies players
      ensures Seats() == Cleared(old(Seats()))
    {
      ghost var s0 := Seats();
      ghost var n := |players|;
      for k := 0 to |players|
        invariant forall j :: 0 <= j < n ==> players[j].State() == if j < k then Cleared(s0)[j] else s0[j]
      {
        players[k].SetBet(0);
        players[k].folded := false;
      }
    }

    /** The player is marked as not having acted (main.py:81-82 and 193). */
    method MarkUnacted(player: Player)
      requires Valid() && player in players
      modifies player
      ensures var k := Position(players, player); Seats() == old(Seats())[k := old(Seats())[k].(madeAction := false)]
    {
      ghost var s0 := Seats();
      ghost var k := Position(players, player);
      player.madeAction := false;
      PositionOfDistinct(players, k);
      assert forall j :: 0 <= j < |players| ==> players[j].State() == s0[k := player.State()][j];
    }

    /**
     * `initialize_round` (main.py:64-84): refill the deck and deal; then the round opens on the
     * dealt table `t` as `OpenRound` says, the small blind and the big blind each raising the
     * bet's `ValueError` when refused. With more players than the 52 cards can serve two each,
     * the deal raises, the deck is left empty and nothing after it happens.
     */
    method InitializeRound() returns (ok: bool, ghost t: Table, ghost rest: seq<Card>)
      requires Valid() && HasDealer(Seats())
      modifies this, players, deck
      ensures Valid() && Setup() == old(Setup()).(roundEnded := roundEnded)
      ensures t == old(View()).(seats := t.seats) && HasDealer(t.seats) && DealtFrom(old(Seats()), t.seats, rest)
      ensures 2 * |t.seats| > 52 ==> !ok && View() == t && players == old(players) && roundEnded == old(roundEnded)
      ensures 2 * |t.seats| <= 52 ==>
        (ok, View()) == BlindsOutcome(Opening(t), smallBlind, bigBlind) && roundEnded == (if ok then false else old(roundEnded))
    {
      var dealt := DealRound();
      t, rest := View(), deck.cards;
      if !dealt {
        return false, t, rest;
      }
      ok := OpenWithBlinds();
      if ok {
        SetRoundEnded(false);
      }
    }

    /** Sets whether the round has ended (main.py:84 and 121). */
    method SetRoundEnded(ended: bool)
      requires Valid()
      modifies this
      ensures Valid() && roundEnded == ended && View() == old(View())
      ensures Setup() == old(Setup()).(roundEnded := ended) && players == old(players) && current == old(current)
    {
      roundEnded := ended;
    }

    /** main.py:67-82: the table opened on the dealer, then the blinds posted. */
    method OpenWithBlinds() returns (ok: bool)
      requires Valid() && HasDealer(Seats())
      modifies this, players
      ensures Valid() && Setup() == old(Setup())
      ensures (ok, View()) == BlindsOutcome(Opening(old(View())), smallBlind, bigBlind)
    {
      OpenTable();
      ok := PostBlinds();
    }

    /** The deck is refilled and every player dealt a hand from it (main.py:65-66). */
    method DealRound() returns (dealt: bool)
      requires Valid()
      modifies players, deck
      ensures Valid() && Setup() == old(Setup()) && players == old(players) && current == old(current)
      ensures currentBet == old(currentBet) && pot == old(pot)
      ensures (dealt <==> 2 * |players| <= 52) && DealtFrom(old(Seats()), Seats(), deck.cards)
      ensures HasDealer(old(Seats())) ==> HasDealer(Seats())
    {
      ghost var s0 := Seats();
      deck.Refill();
      FullDeckComplete();
      ghost var dealtSeats;
      dealt, dealtSeats := Deal();
      NewHandsKeepDealer(s0, Seats());
    }

    /** main.py:67-76: the pot emptied, folds and totals cleared, the list turned to the dealer, who gets the turn. */
    method OpenTable()
      requires Valid() && HasDealer(Seats())
      modifies this, players
      ensures Valid() && Setup() == old(Setup()) && current == players[0]
      ensures Turned(old(players), players, FirstDealer(old(Seats()), 0))
      ensures forall k :: 0 <= k < |players| ==> players[k] in old(players)
      ensures View() == Opening(old(View()))
    {
      OpeningSteps(View());
      ResetRound();
      TurnToDealer();
      TurnToFirst();
    }

    /** The turn goes to the first player of the list (main.py:76). */
    method TurnToFirst()
      requires Valid()
      modifies this
      ensures Valid() && Setup() == old(Setup()) && players == old(players) && current == players[0]
      ensures View() == old(View()).(current := 0)
    {
      current := players[0];
      PositionOfDistinct(players, 0);
    }

    /** main.py:67-71. */
    method ResetRound()
      requires Valid()
      modifies this, players
      ensures Valid() && Setup() == old(Setup()) && players == old(players) && current == old(current)
      ensures View() == old(View()).(seats := Reset(old(Seats())), pot := 0)
    {
      pot := 0;
      ResetPlayers();
    }

    /**
     * main.py:77-82: the player holding the turn bets the small blind, the player the turn
     * passes to bets the big blind, and both are marked as not having acted.
     */
    method PostBlinds() returns (ok: bool)
      requires Valid() && SomeActive(Seats()) && current == players[0]
      modifies this, players
      ensures Valid() && players == old(players) && Setup() == old(Setup())
      ensures (ok, View()) == BlindsOutcome(old(View()), smallBlind, bigBlind)
    {
      BlindsSteps(View(), smallBlind, bigBlind);
      var sb := current;
      ok := Bet(sb, smallBlind);
      if !ok {
        return;
      }
      var bb := current;
      ok := Bet(bb, bigBlind);
      if !ok {
        return;
      }
      UnmarkBlinds(sb, bb);
    }

    /** The two blind posters are marked as not having acted (main.py:81-82). */
    method UnmarkBlinds(sb: Player, bb: Player)
      requires Valid() && sb in players && bb in players
      modifies sb, bb
      ensures Valid() && Setup() == old(Setup()) && players == old(players) && current == old(current)
      ensures View() == Unmark(old(View()), Position(players, sb), Position(players, bb))
    {
      MarkUnacted(sb);
      MarkUnacted(bb);
    }

    /**
     * `finish_round` (main.py:89-121): the side pots are settled against the board and each
     * recorded share is credited to its player; the shares become `round_win_info` and the round
     * ends. When the cards of a contender cannot be evaluated, the evaluator raises before any
     * chips move, and nothing changes.
     */
    method FinishRound() returns (ok: bool)
      requires Valid()
      modifies this, players
      ensures Valid() && players == old(players) && current == old(current) && deck.cards == old(deck.cards)
      ensures currentBet == old(currentBet) && pot == old(pot)
      ensures Setup() == old(Setup()).(roundEnded := roundEnded, roundWinInfo := roundWinInfo)
      ensures var r := Settle(old(Seats()), board);
        ok == r.Some? &&
        (ok ==> Seats() == r.value.0 && roundWinInfo == WinInfo(players, r.value.1) && roundEnded) &&
        (!ok ==> Seats() == old(Seats()) && roundWinInfo == old(roundWinInfo) && roundEnded == old(roundEnded))
    {
      var r := Settle(Seats(), board);
      if r.None? {
        return false;
      }
      var earned := r.value.1;
      CreditAll(earned);
      EndRound(WinInfo(players, earned));
      ok := true;
    }

    /** The loop of main.py:116-118: each share in turn is added to its player's chips. */
    method CreditAll(earned: seq<(int, (nat, string))>)
      requires Valid() && forall e :: e in earned ==> e.1.0 < |players|
      modifies players
      ensures Seats() == Credit(old(Seats()), earned)
    {
      ghost var s0, ps := Seats(), players;
      ghost var n := |players|;
      ghost var cur := s0;
      var rest: seq<(int, (nat, string))> := earned;
      while rest != []
        invariant players == ps && Distinct(ps) && |ps| == |cur| == n
        invariant forall e :: e in rest ==> e.1.0 < n
        invariant Credit(cur, rest) == Credit(s0, earned)
        invariant forall j :: 0 <= j < n ==> ps[j].State() == cur[j]
        decreases |rest|
      {
        var who, amount := rest[0].1.0, rest[0].0;
        assert rest[0] in rest;
        players[who].chips := players[who].chips + amount;
        cur := CreditShare(cur, rest[0]);
        rest := rest[1..];
      }
    }

    /** The earnings are recorded as the round's result and the round ends (main.py:120-121). */
    method EndRound(info: seq<(int, (Player, string))>)
      requires Valid()
      modifies this
      ensures Valid() && players == old(players) && current == old(current) && View() == old(View())
      ensures Setup() == old(Setup()).(roundEnded := true, roundWinInfo := info)
    {
      roundWinInfo := info;
      roundEnded := true;
    }

    /**
     * main.py:182-193, the street that `next_betting_round` opens: the list turns to the dealer,
     * every bet and fold is cleared, `current_bet` drops to zero, and the turn passes on from the
     * player holding it, who is then marked as not having acted.
     */
    method StartStreet()
      requires Valid() && HasDealer(Seats())
      modifies this, players
      ensures Valid() && Setup() == old(Setup())
      ensures View() == NewStreet(old(View()))
    {
      NewStreetSteps(View());
      TurnToDealer();
      ClearStreet();
      var d := current;
      assert !Seats()[0].folded;
      RotatePlayer();
      UnmarkOpener(d);
    }

    /** main.py:185-189: no bet and no fold is left, and `current_bet` is zero. */
    method ClearStreet()
      requires Valid()
      modifies this, players
      ensures Valid() && Setup() == old(Setup()) && players == old(players) && current == old(current)
      ensures View() == old(View()).(seats := Cleared(old(Seats())), currentBet := 0)
    {
      ClearBets();
      currentBet := 0;
    }

    /** `d.made_action = False` (main.py:193) for the player `d` who held the turn. */
    method UnmarkOpener(d: Player)
      requires Valid() && d in players
      modifies d
      ensures Valid() && Setup() == old(Setup()) && players == old(players) && current == old(current)
      ensures var t, k := old(View()), Position(players, d);
        View() == t.(seats := t.seats[k := t.seats[k].(madeAction := false)])
    {
      MarkUnacted(d);
    }

    /**
     * `next_betting_round` (main.py:174-193): with an empty board the flop is drawn, with fewer
     * than five cards the turn or the river; a full board finishes the round instead. On the
     * table `t` this leaves, a new street opens as `NewStreet` says. When the draw or the
     * settlement raises, nothing after it happens: the draw has emptied the deck and left the
     * board as it was, the settlement has changed nothing.
     */
    method NextBettingRound() returns (ok: bool, ghost t: Table, ghost rest: seq<Card>)
      requires Valid() && HasDealer(Seats())
      modifies this, players, deck
      ensures Valid() && BoardStep(old(Setup()), old(View()), old(deck.cards), old(players), ok, Setup(), t, rest)
      ensures t.current < |t.seats| && HasDealer(t.seats) && View() == if ok then NewStreet(t) else t
    {
      ok, rest := AdvanceBoard();
      t := View();
      if ok {
        StartStreet();
      }
    }

    /** main.py:175-180: the cards for the next street, or the settlement of a full board. */
    method AdvanceBoard() returns (ok: bool, ghost rest: seq<Card>)
      requires Valid() && HasDealer(Seats())
      modifies this, players, deck
      ensures Valid() && players == old(players) && HasDealer(Seats()) && rest == deck.cards
      ensures BoardStep(old(Setup()), old(View()), old(deck.cards), old(players), ok, Setup(), View(), rest)
    {
      if |board| < 5 {
        ok, rest := DrawStreet();
      } else {
        ok, rest := SettleBoard();
      }
    }

    /** main.py:175-178: three cards for the flop on an empty board, else one. */
    method DrawStreet() returns (ok: bool, ghost rest: seq<Card>)
      requires Valid() && HasDealer(Seats()) && |board| < 5
      modifies this, deck
      ensures Valid() && players == old(players) && HasDealer(Seats()) && rest == deck.cards
      ensures BoardStep(old(Setup()), old(View()), old(deck.cards), old(players), ok, Setup(), View(), rest)
    {
      ok := DrawToBoard(if |board| == 0 then 3 else 1);
      rest := deck.cards;
    }

    /** main.py:179-180: a full board finishes the round. */
    method SettleBoard() returns (ok: bool, ghost rest: seq<Card>)
      requires Valid() && HasDealer(Seats()) && |board| >= 5
      modifies this, players
      ensures Valid() && players == old(players) && HasDealer(Seats()) && rest == deck.cards
      ensures BoardStep(old(Setup()), old(View()), old(deck.cards), old(players), ok, Setup(), View(), rest)
    {
      ghost var s0 := Seats();
      ok := FinishRound();
      if ok {
        SameDealers(s0, Seats());
      }
      rest := deck.cards;
    }

    /** `amount` cards drawn from the deck are added to the board (main.py:176 and 178). */
    method DrawToBoard(amount: nat) returns (ok: bool)
      requires Valid()
      modifies this, deck
      ensures Valid() && players == old(players) && current == old(current) && View() == old(View())
      ensures Setup() == old(Setup()).(board := board)
      ensures ok <==> amount <= |old(deck.cards)|
      ensures ok ==>
        |board| == |old(board)| + amount && board[..|old(board)|] == old(board) &&
        multiset(board) + multiset(deck.cards) == multiset(old(board)) + multiset(old(deck.cards))
      ensures !ok ==> board == old(board) && deck.cards == []
    {
      var drawn;
      ok, drawn := deck.Draw(amount);
      if ok {
        board := board + drawn;
      }
    }

    /**
     * One step of the generator `players_to_act` (main.py:46-49): the player holding the turn,
     * while some player has neither acted and matched `current_bet` (or run out of chips) nor
     * folded; `None` once the betting round is closed.
     */
    function NextToAct(): (r: Option<Player>)
      reads this, players
      requires Valid()
      ensures r.Some? <==> !BettingClosed(View())
      ensures r.Some? ==> r.value == current
    {
      if forall p :: p in players ==> (p.madeAction && (p.bet == currentBet || p.chips == 0)) || p.folded
      then None
      else Some(current)
    }
  }
}
