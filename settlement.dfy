/**
 * `finish_round` of main.py (lines 89-121) on values: the order of the players still in, the
 * side pots kept in a dictionary keyed by amount, the winners of each pot, the earnings
 * dictionary keyed by share, and the chips credited from it. A Python dictionary is a
 * sequence of (key, value) entries in insertion order; assigning to a present key replaces
 * its value in place.
 */
module Settlement {
  import opened Wrappers
  import opened Cards
  import opened Evaluator
  import opened Betting

  // ----- `pot_order` (main.py:91) -----

  predicate InRange(seats: seq<Seat>, xs: seq<nat>) {
    forall i :: 0 <= i < |xs| ==> xs[i] < |seats|
  }

  /**
   * Seat `a` comes before seat `b` in `pot_order`: a smaller `total_bet`, or the same one and an
   * earlier place in `players`. The comprehension lists the players in seat order and Python's
   * `sorted` is stable, so this is the order it produces.
   */
  predicate Before(seats: seq<Seat>, a: nat, b: nat)
    requires a < |seats| && b < |seats|
  {
    seats[a].totalBet < seats[b].totalBet || (seats[a].totalBet == seats[b].totalBet && a < b)
  }

  predicate OrderedBy(seats: seq<Seat>, xs: seq<nat>)
    requires InRange(seats, xs)
  {
    forall a, b :: 0 <= a < b < |xs| ==> Before(seats, xs[a], xs[b])
  }

  predicate Increasing(xs: seq<nat>) {
    forall a, b :: 0 <= a < b < |xs| ==> xs[a] < xs[b]
  }

  /** The seats among the first `k` whose player has not folded, in seat order (main.py:91). */
  function Contenders(seats: seq<Seat>, k: nat): (r: seq<nat>)
    requires k <= |seats|
    ensures forall x: nat :: x in r <==> x < k && !seats[x].folded
    ensures Increasing(r)
  {
    if k == 0 then []
    else
      var c := Contenders(seats, k - 1);
      assert forall i :: 0 <= i < |c| ==> c[i] < k - 1 by {
        forall i | 0 <= i < |c| ensures c[i] < k - 1 {
          assert c[i] in c;
        }
      }
      c + (if seats[k - 1].folded then [] else [k - 1])
  }

  function InsertBy(seats: seq<Seat>, x: nat, xs: seq<nat>): (r: seq<nat>)
    requires x < |seats| && InRange(seats, xs) && x !in xs && OrderedBy(seats, xs)
    ensures |r| == |xs| + 1 && forall y :: y in r <==> y == x || y in xs
    ensures InRange(seats, r) && OrderedBy(seats, r)
  {
    if xs == [] then [x]
    else if Before(seats, x, xs[0]) then
      var r := [x] + xs;
      assert forall j :: 0 < j < |r| ==> r[j] == xs[j - 1];
      assert forall j :: 0 < j < |xs| ==> Before(seats, xs[0], xs[j]);
      r
    else
      var rest := InsertBy(seats, x, xs[1..]);
      var r := [xs[0]] + rest;
      assert forall j :: 0 <= j < |rest| ==> Before(seats, xs[0], rest[j]) by {
        forall j | 0 <= j < |rest| ensures Before(seats, xs[0], rest[j]) {
          assert rest[j] in rest;
          if rest[j] != x {
            var b :| 0 <= b < |xs[1..]| && xs[1..][b] == rest[j];
            assert xs[b + 1] == rest[j];
          }
        }
      }
      assert forall j :: 0 < j < |r| ==> r[j] == rest[j - 1];
      r
  }

  function SortBy(seats: seq<Seat>, xs: seq<nat>): (r: seq<nat>)
    requires InRange(seats, xs) && Increasing(xs)
    ensures |r| == |xs| && forall y :: y in r <==> y in xs
    ensures InRange(seats, r) && OrderedBy(seats, r)
  {
    if xs == [] then []
    else
      var rest := SortBy(seats, xs[1..]);
      assert xs[0] !in rest by {
        forall y | y in xs[1..] ensures y != xs[0] {
          var b :| 0 <= b < |xs[1..]| && xs[1..][b] == y;
          assert xs[b + 1] == y;
        }
      }
      InsertBy(seats, xs[0], rest)
  }

  /**
   * `pot_order` (main.py:91): the players who have not folded, by ascending `total_bet`, ties
   * in seat order.
   */
  function PotOrder(seats: seq<Seat>): (r: seq<nat>)
    ensures InRange(seats, r) && OrderedBy(seats, r)
    ensures forall x: nat :: x in r <==> x < |seats| && !seats[x].folded
  {
    var c := Contenders(seats, |seats|);
    assert forall i :: 0 <= i < |c| ==> c[i] in c;
    SortBy(seats, c)
  }

  /** Two orderings of the same seats by `Before` are the same list: the sort is unique. */
  lemma {:induction false} OrderUnique(seats: seq<Seat>, xs: seq<nat>, ys: seq<nat>)
    requires InRange(seats, xs) && InRange(seats, ys) && OrderedBy(seats, xs) && OrderedBy(seats, ys)
    requires forall y :: y in xs <==> y in ys
    ensures xs == ys
    decreases |xs|
  {
    assert xs != [] ==> xs[0] in ys;
    assert ys != [] ==> ys[0] in xs;
    if xs != [] && ys != [] {
      assert xs[0] in xs && ys[0] in ys;
      assert xs[0] == ys[0] by {
        var i :| 0 <= i < |ys| && ys[i] == xs[0];
        var j :| 0 <= j < |xs| && xs[j] == ys[0];
      }
      forall y ensures y in xs[1..] ==> y in ys[1..] {
        if y in xs[1..] {
          var a :| 0 <= a < |xs[1..]| && xs[1..][a] == y;
          assert Before(seats, xs[0], xs[a + 1]) && xs[a + 1] in xs;
          var b :| 0 <= b < |ys| && ys[b] == y;
          assert ys[1..][b - 1] == y;
        }
      }
      forall y ensures y in ys[1..] ==> y in xs[1..] {
        if y in ys[1..] {
          var b :| 0 <= b < |ys[1..]| && ys[1..][b] == y;
          assert Before(seats, ys[0], ys[b + 1]) && ys[b + 1] in ys;
          var a :| 0 <= a < |xs| && xs[a] == y;
          assert xs[1..][a - 1] == y;
        }
      }
      OrderUnique(seats, xs[1..], ys[1..]);
      assert xs == [xs[0]] + xs[1..] && ys == [ys[0]] + ys[1..];
    }
  }

  // ----- Side pots (main.py:92-99) -----

  predicate Suffix(xs: seq<nat>, order: seq<nat>) {
    |xs| <= |order| && xs == order[|order| - |xs|..]
  }

  /**
   * The loop of main.py:93-99 over the first `k` entries of `pot_order`: the final
   * `total_bet_delta` and the (amount, eligible players) pairs assigned to `side_pots`, in
   * order. A player with a zero `total_bet` is skipped; each other opens a layer worth its
   * `total_bet` less the previous non-zero one, once for each player from it onwards.
   */
  function Layers(seats: seq<Seat>, order: seq<nat>, k: nat): (r: (int, seq<(int, seq<nat>)>))
    requires k <= |order| && InRange(seats, order)
    ensures forall p :: p in r.1 ==> p.1 != [] && Suffix(p.1, order)
  {
    if k == 0 then (0, [])
    else
      var (delta, layers) := Layers(seats, order, k - 1);
      var n := k - 1;
      var tb := seats[order[n]].totalBet;
      if tb == 0 then (delta, layers)
      else
        var amount := (tb + delta) * (|order| - n);
        (delta - (tb + delta), layers + [(amount, order[n..])])
  }

  /** The keys of a dictionary. */
  function Keys<V>(d: seq<(int, V)>): set<int> {
    set i | 0 <= i < |d| :: d[i].0
  }

  lemma KeysCons<V>(x: (int, V), d: seq<(int, V)>)
    ensures Keys([x] + d) == {x.0} + Keys(d)
  {
    var r := [x] + d;
    forall k | k in Keys(d) ensures k in Keys(r) {
      var i :| 0 <= i < |d| && d[i].0 == k;
      assert r[i + 1].0 == k;
    }
    assert r[0].0 == x.0;
  }

  lemma KeysSnoc<V>(d: seq<(int, V)>, x: (int, V))
    ensures Keys(d + [x]) == Keys(d) + {x.0}
  {
    var r := d + [x];
    forall k | k in Keys(d) ensures k in Keys(r) {
      var i :| 0 <= i < |d| && d[i].0 == k;
      assert r[i].0 == k;
    }
    assert r[|d|].0 == x.0;
  }

  predicate UniqueKeys<V>(d: seq<(int, V)>) {
    forall a, b :: 0 <= a < b < |d| ==> d[a].0 != d[b].0
  }

  lemma UniqueCons<V>(x: (int, V), d: seq<(int, V)>)
    requires UniqueKeys(d) && x.0 !in Keys(d)
    ensures UniqueKeys([x] + d)
  {
    var r := [x] + d;
    forall a, b | 0 <= a < b < |r| ensures r[a].0 != r[b].0 {
      if a == 0 {
        assert r[b] == d[b - 1];
      } else {
        assert r[a] == d[a - 1] && r[b] == d[b - 1];
      }
    }
  }

  lemma UniqueTail<V>(d: seq<(int, V)>)
    requires UniqueKeys(d) && d != []
    ensures UniqueKeys(d[1..]) && d[0].0 !in Keys(d[1..])
  {
    forall i | 0 <= i < |d[1..]| ensures d[1..][i].0 != d[0].0 {
      assert d[1..][i] == d[i + 1];
    }
  }

  /** Assigning a value to a key of a Python dictionary: a new key is appended, a present one replaced in place. */
  function Put<V(==)>(d: seq<(int, V)>, key: int, value: V): (r: seq<(int, V)>)
    ensures |r| == |d| || |r| == |d| + 1
  {
    if d == [] then [(key, value)]
    else if d[0].0 == key then [(key, value)] + d[1..]
    else [d[0]] + Put(d[1..], key, value)
  }

  /**
   * What `d[key] = value` does to a dictionary: the entry assigned is present afterwards, no
   * other key appears or disappears, keys stay unique, a new key goes at the end, and every
   * entry is the one assigned or was there before.
   */
  lemma {:induction false} PutSpec<V>(d: seq<(int, V)>, key: int, value: V)
    ensures var r := Put(d, key, value);
      && (key, value) in r
      && Keys(r) == Keys(d) + {key}
      && (UniqueKeys(d) ==> UniqueKeys(r))
      && (key !in Keys(d) ==> r == d + [(key, value)])
      && forall e :: e in r ==> e == (key, value) || e in d
  {
    var r := Put(d, key, value);
    if d == [] {
      assert r[0].0 == key;
    } else if d[0].0 == key {
      assert r[0] == (key, value);
      assert forall i :: 1 <= i < |r| ==> r[i] == d[i];
      if UniqueKeys(d) {
        UniqueTail(d);
        UniqueCons((key, value), d[1..]);
      }
      KeysCons((key, value), d[1..]);
      KeysCons(d[0], d[1..]);
      assert d == [d[0]] + d[1..];
    } else {
      var rest := Put(d[1..], key, value);
      PutSpec(d[1..], key, value);
      assert d == [d[0]] + d[1..];
      assert r == [d[0]] + rest;

      KeysCons(d[0], d[1..]);
      KeysCons(d[0], rest);
      if UniqueKeys(d) {
        UniqueTail(d);
        UniqueCons(d[0], rest);
      }
    }
  }

  /** Assigning to one key leaves every entry under another key in the dictionary. */
  lemma {:induction false} PutKeepsOthers<V>(d: seq<(int, V)>, key: int, value: V)
    ensures forall e :: e in d && e.0 != key ==> e in Put(d, key, value)
  {
    if d != [] && d[0].0 != key {
      PutKeepsOthers(d[1..], key, value);
      assert d == [d[0]] + d[1..];
    }
  }

  /** Assigning to a key already in a dictionary replaces its value where it stands. */
  lemma {:induction false} PutInPlace<V>(d: seq<(int, V)>, key: int, value: V)
    requires UniqueKeys(d) && key in Keys(d)
    ensures var r := Put(d, key, value);
      |r| == |d| && forall i :: 0 <= i < |d| ==> r[i] == if d[i].0 == key then (key, value) else d[i]
  {
    var r := Put(d, key, value);
    if d[0].0 == key {
      assert forall i :: 1 <= i < |d| ==> d[i].0 != key;
    } else {
      UniqueTail(d);
      KeysCons(d[0], d[1..]);
      assert d == [d[0]] + d[1..];
      PutInPlace(d[1..], key, value);
      assert forall i :: 1 <= i < |d| ==> r[i] == Put(d[1..], key, value)[i - 1] && d[i] == d[1..][i - 1];
    }
  }

  /** Assigning the same entry twice leaves the dictionary as assigning it once. */
  lemma {:induction false} PutTwice<V>(d: seq<(int, V)>, key: int, value: V)
    ensures Put(Put(d, key, value), key, value) == Put(d, key, value)
  {
    if d != [] && d[0].0 != key {
      PutTwice(d[1..], key, value);
    }
  }

  /** A dictionary filled by assigning the entries of `ls` in order. */
  function Collapse<V(==)>(ls: seq<(int, V)>): (d: seq<(int, V)>)
    ensures |d| <= |ls|
  {
    if ls == [] then []
    else Put(Collapse(ls[..|ls| - 1]), ls[|ls| - 1].0, ls[|ls| - 1].1)
  }

  /**
   * The dictionary has one entry per distinct key assigned, every entry was assigned, and the
   * last assignment to a key wins: the pair assigned last under each key is the entry kept.
   */
  lemma {:induction false} CollapseSpec<V>(ls: seq<(int, V)>)
    ensures UniqueKeys(Collapse(ls)) && Keys(Collapse(ls)) == Keys(ls)
    ensures forall e :: e in Collapse(ls) ==> e in ls
    ensures forall j :: 0 <= j < |ls| && LastWithKey(ls, j) ==> ls[j] in Collapse(ls)
  {
    if ls != [] {
      var init := ls[..|ls| - 1];
      var x := ls[|ls| - 1];
      assert ls == init + [x];
      CollapseSpec(init);
      PutSpec(Collapse(init), x.0, x.1);
      KeysSnoc(init, x);
    }
    CollapseLastWins(ls);
  }

  /** The pair assigned last under a key is the entry the dictionary keeps. */
  lemma {:induction false} CollapseLastWins<V>(ls: seq<(int, V)>)
    ensures forall j :: 0 <= j < |ls| && LastWithKey(ls, j) ==> ls[j] in Collapse(ls)
  {
    if ls != [] {
      var init := ls[..|ls| - 1];
      var x := ls[|ls| - 1];
      CollapseLastWins(init);
      PutSpec(Collapse(init), x.0, x.1);
      PutKeepsOthers(Collapse(init), x.0, x.1);
      forall j | 0 <= j < |ls| && LastWithKey(ls, j) ensures ls[j] in Collapse(ls) {
        if j < |ls| - 1 {
          assert ls[j] == init[j] && ls[j].0 != x.0;
          assert LastWithKey(init, j) by {
            forall m | j < m < |init| ensures init[m].0 != init[j].0 {
              assert init[m] == ls[m];
            }
          }
        }
      }
    }
  }

  /** No pair after `ls[j]` has its key: `ls[j]` is the last assignment to that key. */
  predicate LastWithKey<V>(ls: seq<(int, V)>, j: nat)
    requires j < |ls|
  {
    forall m :: j < m < |ls| ==> ls[m].0 != ls[j].0
  }

  /**
   * Two pairs under one key collapse to a single entry: the later one, when nothing after it
   * has that key, and the earlier one is gone unless it is the same pair.
   */
  lemma CollapseOverwrites<V>(ls: seq<(int, V)>, i: nat, j: nat)
    requires i < j < |ls| && ls[i].0 == ls[j].0 && LastWithKey(ls, j)
    ensures ls[j] in Collapse(ls)
    ensures forall e :: e in Collapse(ls) && e.0 == ls[j].0 ==> e == ls[j]
    ensures ls[i] != ls[j] ==> ls[i] !in Collapse(ls)
  {
    var d := Collapse(ls);
    CollapseSpec(ls);
    forall e | e in d && e.0 == ls[j].0 ensures e == ls[j] {
      var k :| 0 <= k < |d| && d[k] == e;
      var l :| 0 <= l < |d| && d[l] == ls[j];
      assert k == l;
    }
  }

  /** `side_pots` (main.py:90-99). */
  function SidePots(seats: seq<Seat>, order: seq<nat>): (d: seq<(int, seq<nat>)>)
    requires InRange(seats, order)
    ensures UniqueKeys(d) && forall p :: p in d ==> p.1 != [] && Suffix(p.1, order)
  {
    CollapseSpec(Layers(seats, order, |order|).1);
    Collapse(Layers(seats, order, |order|).1)
  }

  /** When no two layers share an amount, the dictionary keeps every layer. */
  lemma {:induction false} DistinctAmountsKeepLayers<V>(ls: seq<(int, V)>)
    requires UniqueKeys(ls)
    ensures Collapse(ls) == ls
  {
    if ls != [] {
      var init := ls[..|ls| - 1];
      var x := ls[|ls| - 1];
      assert ls == init + [x];
      assert UniqueKeys(init) by {
        forall a, b | 0 <= a < b < |init| ensures init[a].0 != init[b].0 {
          assert init[a] == ls[a] && init[b] == ls[b];
        }
      }
      DistinctAmountsKeepLayers(init);
      assert x.0 !in Keys(init) by {
        forall i | 0 <= i < |init| ensures init[i].0 != x.0 {
          assert init[i] == ls[i];
        }
      }
      PutSpec(init, x.0, x.1);
    }
  }

  /** The chips in a list of layers. */
  function Amounts(ls: seq<(int, seq<nat>)>): int {
    if ls == [] then 0 else Amounts(ls[..|ls| - 1]) + ls[|ls| - 1].0
  }

  /** The last non-zero `total_bet` among the first `k` players of `pot_order`, or 0. */
  function LastStake(seats: seq<Seat>, order: seq<nat>, k: nat): int
    requires k <= |order| && InRange(seats, order)
  {
    if k == 0 then 0
    else if seats[order[k - 1]].totalBet != 0 then seats[order[k - 1]].totalBet
    else LastStake(seats, order, k - 1)
  }

  /** The sum of `LastStake` at positions 1 .. k. */
  function Held(seats: seq<Seat>, order: seq<nat>, k: nat): int
    requires k <= |order| && InRange(seats, order)
  {
    if k == 0 then 0 else Held(seats, order, k - 1) + LastStake(seats, order, k)
  }

  /**
   * The layers telescope: after `k` players, `total_bet_delta` is minus the last non-zero
   * `total_bet`, and the layers hold, for each player so far, the last non-zero `total_bet` up
   * to that player, plus that stake again for each player still to come.
   */
  lemma {:induction false} LayersTelescope(seats: seq<Seat>, order: seq<nat>, k: nat)
    requires k <= |order| && InRange(seats, order)
    ensures Layers(seats, order, k).0 == -LastStake(seats, order, k)
    ensures Amounts(Layers(seats, order, k).1) ==
      Held(seats, order, k) + (|order| - k) * LastStake(seats, order, k)
  {
    if k > 0 {
      LayersTelescope(seats, order, k - 1);
      var prev := Layers(seats, order, k - 1);
      var tb := seats[order[k - 1]].totalBet;
      var last := LastStake(seats, order, k - 1);
      if tb != 0 {
        var ls := prev.1 + [((tb + prev.0) * (|order| - (k - 1)), order[k - 1..])];
        assert Layers(seats, order, k).1 == ls;
        assert ls[..|ls| - 1] == prev.1;
        NewLayer(Held(seats, order, k - 1), last, tb, |order| - k);
      } else {
        assert Layers(seats, order, k) == prev;
        NewLayer(Held(seats, order, k - 1), last, last, |order| - k);
      }
    }
  }

  /** The arithmetic step of `LayersTelescope`. */
  lemma NewLayer(held: int, last: int, tb: int, rest: int)
    ensures held + (rest + 1) * last + (tb - last) * (rest + 1) == held + tb + rest * tb
  {
  }

  /** The sum of `total_bet` over the first `k` players of `pot_order`. */
  function Staked(seats: seq<Seat>, order: seq<nat>, k: nat): int
    requires k <= |order| && InRange(seats, order)
  {
    if k == 0 then 0 else Staked(seats, order, k - 1) + seats[order[k - 1]].totalBet
  }

  lemma {:induction false} SortedStakes(seats: seq<Seat>, order: seq<nat>, k: nat)
    requires k <= |order| && InRange(seats, order) && OrderedBy(seats, order)
    requires forall i :: 0 <= i < |order| ==> seats[order[i]].totalBet >= 0
    ensures k > 0 ==> LastStake(seats, order, k) == seats[order[k - 1]].totalBet
    ensures Held(seats, order, k) == Staked(seats, order, k)
  {
    if k > 0 {
      SortedStakes(seats, order, k - 1);
      if k > 1 {
        assert Before(seats, order[k - 2], order[k - 1]);
      }
    }
  }

  /**
   * When every `total_bet` is at least 0, or no player still in has a `total_bet` of 0, the
   * side-pot layers add up to exactly the players' `total_bet`s, whatever their sign: every chip
   * staked is in some layer once (main.py:91-99).
   */
  lemma LayersAddUp(seats: seq<Seat>)
    requires || (forall j :: 0 <= j < |seats| ==> seats[j].totalBet >= 0)
             || (forall j :: 0 <= j < |seats| && !seats[j].folded ==> seats[j].totalBet != 0)
    ensures var order := PotOrder(seats);
      Amounts(Layers(seats, order, |order|).1) == Staked(seats, order, |order|)
  {
    var order := PotOrder(seats);
    if forall j :: 0 <= j < |seats| ==> seats[j].totalBet >= 0 {
      OrderedLayersAddUp(seats, order);
    } else {
      forall i | 0 <= i < |order| ensures seats[order[i]].totalBet != 0 {
        assert order[i] in order;
      }
      NonZeroLayersAddUp(seats, order);
    }
  }

  lemma NonZeroLayersAddUp(seats: seq<Seat>, order: seq<nat>)
    requires InRange(seats, order)
    requires forall i :: 0 <= i < |order| ==> seats[order[i]].totalBet != 0
    ensures Amounts(Layers(seats, order, |order|).1) == Staked(seats, order, |order|)
  {
    var n := |order|;
    LayersTelescope(seats, order, n);
    NonZeroStakes(seats, order, n);
    assert (|order| - n) * LastStake(seats, order, n) == 0;
  }

  /** With no `total_bet` of 0 in `pot_order`, each player's layer stake is their own `total_bet`. */
  lemma {:induction false} NonZeroStakes(seats: seq<Seat>, order: seq<nat>, k: nat)
    requires k <= |order| && InRange(seats, order)
    requires forall i :: 0 <= i < |order| ==> seats[order[i]].totalBet != 0
    ensures Held(seats, order, k) == Staked(seats, order, k)
  {
    if k > 0 {
      NonZeroStakes(seats, order, k - 1);
    }
  }

  /**
   * A `total_bet` of 0 after non-zero ones is skipped, but the layer before it was counted once
   * more for that player: with three players staking `a < b < 0` and a third staking 0, the
   * layers are `3 * a` and `2 * (b - a)`, which add up to `b` more than was staked. The stakes
   * -30, -10 and 0, which the `bet` setter reaches (a player who folds without betting is
   * unfolded on the next street and checks on), give the layers -90 and 40: -50 against -40.
   */
  lemma ZeroStakeMiscounted(seats: seq<Seat>)
    requires |seats| == 3 && NoneFolded(seats)
    requires seats[0].totalBet < seats[1].totalBet < 0 && seats[2].totalBet == 0
    ensures var order, a, b := PotOrder(seats), seats[0].totalBet, seats[1].totalBet;
      && Layers(seats, order, 3).1 == [(3 * a, [0, 1, 2]), (2 * (b - a), [1, 2])]
      && Amounts(Layers(seats, order, 3).1) == Staked(seats, order, 3) + b
  {
    AscendingOrder(seats);
    ZeroLayers(seats, PotOrder(seats));
  }

  /** The layers of three players with stakes `a < b < 0` and 0, and what they add up to. */
  lemma ZeroLayers(seats: seq<Seat>, order: seq<nat>)
    requires |seats| == 3 && order == [0, 1, 2]
    requires seats[0].totalBet < seats[1].totalBet < 0 && seats[2].totalBet == 0
    ensures var (a, b) := (seats[0].totalBet, seats[1].totalBet);
      && Layers(seats, order, 3).1 == [(3 * a, order), (2 * (b - a), [1, 2])]
      && Amounts(Layers(seats, order, 3).1) == Staked(seats, order, 3) + b
  {
    var (a, b) := (seats[0].totalBet, seats[1].totalBet);
    assert order[0..] == order && order[1..] == [1, 2];
    assert Layers(seats, order, 0) == (0, []);
    var l1 := Layers(seats, order, 1);
    assert l1.1 == [((a + 0) * (|order| - 0), order[0..])];
    var l2 := Layers(seats, order, 2);
    assert l2.1 == l1.1 + [((b + l1.0) * (|order| - 1), order[1..])];
    assert Layers(seats, order, 3) == l2;
    LayersTelescope(seats, order, 3);
    ZeroStakeSums(seats, order);
  }

  lemma ZeroStakeSums(seats: seq<Seat>, order: seq<nat>)
    requires |seats| == 3 && order == [0, 1, 2]
    requires seats[0].totalBet < seats[1].totalBet < 0 && seats[2].totalBet == 0
    ensures var (a, b) := (seats[0].totalBet, seats[1].totalBet);
      LastStake(seats, order, 3) == b && Held(seats, order, 3) == a + b + b && Staked(seats, order, 3) == a + b
  {
    var (a, b) := (seats[0].totalBet, seats[1].totalBet);
    assert order[0] == 0 && order[1] == 1 && order[2] == 2;
    assert LastStake(seats, order, 1) == a && LastStake(seats, order, 2) == b;
    assert LastStake(seats, order, 3) == b;
    assert Held(seats, order, 0) == 0 && Staked(seats, order, 0) == 0;
    assert Held(seats, order, 1) == a && Staked(seats, order, 1) == a;
    assert Held(seats, order, 2) == a + b && Staked(seats, order, 2) == a + b;
  }

  lemma OrderedLayersAddUp(seats: seq<Seat>, order: seq<nat>)
    requires InRange(seats, order) && OrderedBy(seats, order)
    requires forall i :: 0 <= i < |order| ==> seats[order[i]].totalBet >= 0
    ensures Amounts(Layers(seats, order, |order|).1) == Staked(seats, order, |order|)
  {
    var n := |order|;
    LayersTelescope(seats, order, n);
    SortedStakes(seats, order, n);
    assert (|order| - n) * LastStake(seats, order, n) == 0;
  }

  lemma {:induction false} NonPositiveHeld(seats: seq<Seat>, order: seq<nat>, k: nat)
    requires k <= |order| && InRange(seats, order)
    requires forall i :: 0 <= i < |order| ==> seats[order[i]].totalBet <= 0
    ensures LastStake(seats, order, k) <= 0 && Held(seats, order, k) <= 0
  {
    if k > 0 {
      NonPositiveHeld(seats, order, k - 1);
    }
  }

  /**
   * Under the setter as written no `total_bet` is positive (`ActionsKeepTotalsNonPositive`), and
   * then the side-pot layers add up to at most zero: the chips in `pot` never reach them.
   */
  lemma NonPositiveLayers(seats: seq<Seat>)
    requires NoPositiveTotals(seats)
    ensures var order := PotOrder(seats); Amounts(Layers(seats, order, |order|).1) <= 0
  {
    var order := PotOrder(seats);
    OrderedLayersNonPositive(seats, order);
  }

  lemma OrderedLayersNonPositive(seats: seq<Seat>, order: seq<nat>)
    requires InRange(seats, order)
    requires forall i :: 0 <= i < |order| ==> seats[order[i]].totalBet <= 0
    ensures Amounts(Layers(seats, order, |order|).1) <= 0
  {
    var n := |order|;
    LayersTelescope(seats, order, n);
    NonPositiveHeld(seats, order, n);
    assert (|order| - n) * LastStake(seats, order, n) == 0;
  }

  /**
   * Two layers of the same amount share one dictionary key. With three players staking
   * non-zero `a < b < c`, where the middle layer `2 * (b - a)` equals the top layer `c - b`,
   * the dictionary keeps the bottom layer and only the later of the two equal ones, for the
   * last player alone: the chips of the middle layer are never awarded. The stakes -40, -30
   * and -10, which the `bet` setter reaches, give the layers -120, 20 and 20; so do 10, 20
   * and 40 with 30, 20 and 20.
   */
  lemma SidePotsCollide(seats: seq<Seat>)
    requires |seats| == 3 && NoneFolded(seats)
    requires seats[0].totalBet < seats[1].totalBet < seats[2].totalBet
    requires seats[0].totalBet != 0 && seats[1].totalBet != 0 && seats[2].totalBet != 0
    requires 2 * (seats[1].totalBet - seats[0].totalBet) == seats[2].totalBet - seats[1].totalBet
    requires 3 * seats[0].totalBet != seats[2].totalBet - seats[1].totalBet
    ensures SidePots(seats, PotOrder(seats)) ==
      [(3 * seats[0].totalBet, [0, 1, 2]), (seats[2].totalBet - seats[1].totalBet, [2])]
  {
    AscendingOrder(seats);
    var order := PotOrder(seats);
    ThreeLayers(seats, order);
    var ls := Layers(seats, order, 3).1;
    CollapseThree(ls, 3 * seats[0].totalBet, seats[2].totalBet - seats[1].totalBet, order, [1, 2], [2]);
  }

  /** Three players still in with ascending stakes are ordered by seat. */
  lemma AscendingOrder(seats: seq<Seat>)
    requires |seats| == 3 && NoneFolded(seats)
    requires seats[0].totalBet < seats[1].totalBet < seats[2].totalBet
    ensures PotOrder(seats) == [0, 1, 2]
  {
    SortedThree(seats, PotOrder(seats));
  }

  lemma SortedThree(seats: seq<Seat>, sorted: seq<nat>)
    requires |seats| == 3 && NoneFolded(seats)
    requires seats[0].totalBet < seats[1].totalBet < seats[2].totalBet
    requires InRange(seats, sorted) && OrderedBy(seats, sorted)
    requires forall x: nat :: x in sorted <==> x < |seats| && !seats[x].folded
    ensures sorted == [0, 1, 2]
  {
    var order: seq<nat> := [0, 1, 2];
    assert InRange(seats, order);
    assert OrderedBy(seats, order) by {
      assert Before(seats, 0, 1) && Before(seats, 0, 2) && Before(seats, 1, 2);
    }
    assert forall y :: y in sorted <==> y in order by {
      assert forall x: nat :: x in order <==> x < 3;
    }
    OrderUnique(seats, sorted, order);
  }

  /** The layers of three players with non-zero stakes `a < b < c`. */
  lemma ThreeLayers(seats: seq<Seat>, order: seq<nat>)
    requires |seats| == 3 && order == [0, 1, 2]
    requires seats[0].totalBet < seats[1].totalBet < seats[2].totalBet
    requires seats[0].totalBet != 0 && seats[1].totalBet != 0 && seats[2].totalBet != 0
    ensures var (a, b, c) := (seats[0].totalBet, seats[1].totalBet, seats[2].totalBet);
      Layers(seats, order, 3).1 == [(3 * a, order), (2 * (b - a), [1, 2]), (c - b, [2])]
  {
    var (a, b, c) := (seats[0].totalBet, seats[1].totalBet, seats[2].totalBet);
    assert order[0..] == order && order[1..] == [1, 2] && order[2..] == [2];
    assert Layers(seats, order, 0) == (0, []);
    var l1 := Layers(seats, order, 1);
    assert l1.1 == [((a + 0) * (|order| - 0), order[0..])];
    var l2 := Layers(seats, order, 2);
    assert l2.1 == l1.1 + [((b + l1.0) * (|order| - 1), order[1..])];
    var l3 := Layers(seats, order, 3);
    assert l3.1 == l2.1 + [((c + l2.0) * (|order| - 2), order[2..])];
  }

  /** A dictionary filled from three entries whose last two keys are equal. */
  lemma CollapseThree<V>(ls: seq<(int, V)>, x: int, y: int, u: V, v: V, w: V)
    requires ls == [(x, u), (y, v), (y, w)] && x != y
    ensures Collapse(ls) == [(x, u), (y, w)]
  {
    var none: seq<(int, V)> := [];
    assert ls[..1][..0] == none && ls[..2][..1] == ls[..1];
    assert Collapse(ls[..1]) == [(x, u)];
    var one: seq<(int, V)> := [(x, u)];
    assert one[1..] == none;
    assert Put(one, y, v) == [(x, u)] + [(y, v)];
    var d := Collapse(ls[..2]);
    assert d == [(x, u), (y, v)];
    assert d[1..] == [(y, v)];
    assert Put(d[1..], y, w) == [(y, w)];
  }

  // ----- Winners (main.py:103-111) -----

  /**
   * The evaluation of each eligible player's hand with the board (main.py:106); None when one
   * of them has fewer than five cards, where `evaluate` raises.
   */
  function Evals(seats: seq<Seat>, board: seq<Card>, eligible: seq<nat>): (r: Option<seq<seq<int>>>)
    requires InRange(seats, eligible)
    ensures r.Some? <==> forall m :: 0 <= m < |eligible| ==> |seats[eligible[m]].hand + board| >= 5
    ensures r.Some? ==> |r.value| == |eligible|
  {
    if forall m :: 0 <= m < |eligible| ==> |seats[eligible[m]].hand + board| >= 5 then
      Some(seq(|eligible|, m requires 0 <= m < |eligible| => Evaluate(seats[eligible[m]].hand + board).value))
    else None
  }

  /** Each evaluation is what `evaluate` returns for that player's cards, a well-shaped score. */
  lemma EvalsSpec(seats: seq<Seat>, board: seq<Card>, eligible: seq<nat>)
    requires InRange(seats, eligible) && Evals(seats, board, eligible).Some?
    ensures forall m :: 0 <= m < |eligible| ==>
      Evaluate(seats[eligible[m]].hand + board) == Some(Evals(seats, board, eligible).value[m])
    ensures forall m :: 0 <= m < |eligible| ==> WellShaped(Evals(seats, board, eligible).value[m])
  {
    var es := Evals(seats, board, eligible).value;
    forall m | 0 <= m < |eligible| ensures WellShaped(es[m]) {
      assert Evaluate(seats[eligible[m]].hand + board) == Some(es[m]);
    }
  }

  /**
   * The loop of main.py:105-111 over the first `k` evaluations: the best evaluation so far,
   * starting from the empty tuple, and the positions holding it.
   */
  function Contest(evals: seq<seq<int>>, k: nat): (r: (seq<int>, seq<nat>))
    requires k <= |evals|
    ensures forall m :: m in r.1 ==> m < k
    ensures k > 0 ==> r.1 != []
  {
    if k == 0 then ([], [])
    else
      var prev := Contest(evals, k - 1);
      var e := evals[k - 1];
      if LexLess(prev.0, e) then (e, [k - 1])
      else if e == prev.0 then (prev.0, prev.1 + [k - 1])
      else prev
  }

  /**
   * `winning_hand` is the largest evaluation, held by some player, and `winners` lists, in
   * order, exactly the positions whose evaluation equals it.
   */
  lemma {:induction false} ContestFindsBest(evals: seq<seq<int>>, k: nat)
    requires 0 < k <= |evals| && forall m :: 0 <= m < |evals| ==> |evals[m]| > 0
    ensures exists m :: 0 <= m < k && evals[m] == Contest(evals, k).0
    ensures forall m :: 0 <= m < k ==> LexLe(evals[m], Contest(evals, k).0)
    ensures forall m: nat :: m in Contest(evals, k).1 <==> m < k && evals[m] == Contest(evals, k).0
    ensures Contest(evals, k).1 != [] && Increasing(Contest(evals, k).1)
  {
    var e := evals[k - 1];
    var r := Contest(evals, k);
    if k == 1 {
      assert Contest(evals, 0) == ([], []);
      assert LexLess([], e);
    } else {
      ContestFindsBest(evals, k - 1);
      var prev := Contest(evals, k - 1);
      LexTrichotomy(prev.0, e);
      if LexLess(prev.0, e) {
        assert r == (e, [k - 1]);
        forall m | 0 <= m < k - 1 ensures LexLess(evals[m], e) {
          if evals[m] != prev.0 {
            LexLessTransitive(evals[m], prev.0, e);
          }
        }
        LexLessIrreflexive(e);
      } else if e == prev.0 {
        assert r == (prev.0, prev.1 + [k - 1]);
        forall a | 0 <= a < |prev.1| ensures prev.1[a] < k - 1 {
          assert prev.1[a] in prev.1;
        }
      } else {
        assert r == prev;
        LexLessIrreflexive(prev.0);
      }
    }
  }

  /** A list of increasing indices below `n` has at most `n` entries. */
  lemma {:induction false} IncreasingBound(xs: seq<nat>, n: nat)
    requires Increasing(xs) && forall x :: x in xs ==> x < n
    ensures |xs| <= n
  {
    if xs != [] {
      var init := xs[..|xs| - 1];
      var last := xs[|xs| - 1];
      assert last in xs;
      forall x | x in init ensures x < last {
        var a :| 0 <= a < |init| && init[a] == x;
        assert xs[a] == x;
      }
      assert Increasing(init) by {
        forall a, b | 0 <= a < b < |init| ensures init[a] < init[b] {
          assert init[a] == xs[a] && init[b] == xs[b];
        }
      }
      IncreasingBound(init, last);
    }
  }

  /** The contest over well-shaped evaluations has between one and all players winning, and a named category. */
  lemma ContestOutcome(evals: seq<seq<int>>)
    requires |evals| > 0 && forall m :: 0 <= m < |evals| ==> WellShaped(evals[m])
    ensures var c := Contest(evals, |evals|);
      0 < |c.1| <= |evals| && WellShaped(c.0) && c.0[0] in RankMeanings
  {
    var c := Contest(evals, |evals|);
    ContestFindsBest(evals, |evals|);
    IncreasingBound(c.1, |evals|);
    var m :| 0 <= m < |evals| && evals[m] == c.0;
    MeaningDefined(c.0[0]);
  }

  lemma MeaningDefined(c: int)
    requires 0 <= c <= 9
    ensures c in RankMeanings
  {
  }

  // ----- Earnings (main.py:112-114) -----

  /**
   * One side pot settled (main.py:102-114): the share `amount // len(winners)` and the
   * category name of the winning hand, recorded for `p`, the loop variable left over from
   * the evaluation loop, which is the last eligible player and not necessarily a winner.
   * Python's `//` floors; for a positive divisor that is Dafny's `/`. The recording is
   * repeated once per winner with the same key and value, which `PutTwice` shows is the same
   * as recording it once.
   */
  function Award(seats: seq<Seat>, board: seq<Card>, pot: (int, seq<nat>)): (r: Option<(int, (nat, string))>)
    requires pot.1 != [] && InRange(seats, pot.1)
    ensures r.Some? <==> Evals(seats, board, pot.1).Some?
    ensures r.Some? ==> r.value.1.0 == pot.1[|pot.1| - 1]
  {
    match Evals(seats, board, pot.1)
    case None => None
    case Some(evals) =>
      var c := Contest(evals, |evals|);
      Some((pot.0 / |c.1|, (pot.1[|pot.1| - 1], Meaning(c.0))))
  }

  /**
   * `rank_meanings[winning_hand[0]]`. The empty name for a score without a known category is
   * never produced: every evaluation is a well-shaped score (`AwardShare`).
   */
  function Meaning(score: seq<int>): string {
    if |score| > 0 && score[0] in RankMeanings then RankMeanings[score[0]] else ""
  }

  /**
   * The share recorded for a pot is its amount floor-divided by the number of winners, who
   * are between one and all of the eligible players, and the reason is the name of the
   * winning hand's category.
   */
  lemma AwardShare(seats: seq<Seat>, board: seq<Card>, pot: (int, seq<nat>))
    requires pot.1 != [] && InRange(seats, pot.1) && Award(seats, board, pot).Some?
    ensures var c := Contest(Evals(seats, board, pot.1).value, |pot.1|);
      && 0 < |c.1| <= |pot.1| && Award(seats, board, pot).value.0 == pot.0 / |c.1|
      && WellShaped(c.0) && c.0[0] in RankMeanings
      && Award(seats, board, pot).value.1.1 == RankMeanings[c.0[0]]
  {
    EvalsSpec(seats, board, pot.1);
    ContestOutcome(Evals(seats, board, pot.1).value);
  }

  /** Every pot is non-empty and names seats of the table. */
  predicate PotsInRange(seats: seq<Seat>, pots: seq<(int, seq<nat>)>) {
    forall i :: 0 <= i < |pots| ==> pots[i].1 != [] && InRange(seats, pots[i].1)
  }

  /**
   * The awards of the side pots (main.py:101-114), in the order of `side_pots`; None when an
   * evaluation raises.
   */
  function Awards(seats: seq<Seat>, board: seq<Card>, pots: seq<(int, seq<nat>)>)
    : (r: Option<seq<(int, (nat, string))>>)
    requires PotsInRange(seats, pots)
    ensures r.Some? ==> |r.value| == |pots|
  {
    AllSome(seq(|pots|, i requires 0 <= i < |pots| => Award(seats, board, pots[i])))
  }

  /** The awards are the pots' awards one by one, and exist exactly when every pot's does. */
  lemma AwardsPointwise(seats: seq<Seat>, board: seq<Card>, pots: seq<(int, seq<nat>)>)
    requires PotsInRange(seats, pots)
    ensures Awards(seats, board, pots).Some? <==>
      forall i :: 0 <= i < |pots| ==> Award(seats, board, pots[i]).Some?
    ensures Awards(seats, board, pots).Some? ==>
      forall i :: 0 <= i < |pots| ==> Awards(seats, board, pots).value[i] == Award(seats, board, pots[i]).value
  {
    var xs := seq(|pots|, i requires 0 <= i < |pots| => Award(seats, board, pots[i]));
    AllSomeSpec(xs);
    assert Awards(seats, board, pots) == AllSome(xs);
    assert forall i :: 0 <= i < |pots| ==> xs[i] == Award(seats, board, pots[i]);
  }

  /**
   * `earnings` (main.py:112-114): the awards recorded one after another in a dictionary keyed
   * by share, so a later pot with the same share overwrites an earlier one.
   */
  function Earnings(seats: seq<Seat>, board: seq<Card>, pots: seq<(int, seq<nat>)>)
    : (r: Option<seq<(int, (nat, string))>>)
    requires PotsInRange(seats, pots)
    ensures r.Some? <==> Awards(seats, board, pots).Some?
  {
    match Awards(seats, board, pots)
    case None => None
    case Some(awards) => Some(Collapse(awards))
  }

  /**
   * Two pots whose shares are equal leave a single entry under that share in `earnings`
   * (main.py:114): the later pot's award, with its player and reason, and the earlier award is
   * lost unless it was the same.
   */
  lemma EqualSharesOverwrite(seats: seq<Seat>, board: seq<Card>, pots: seq<(int, seq<nat>)>, i: nat, j: nat)
    requires PotsInRange(seats, pots) && Awards(seats, board, pots).Some? && i < j < |pots|
    requires var a := Awards(seats, board, pots).value; a[i].0 == a[j].0 && LastWithKey(a, j)
    ensures var a, e := Awards(seats, board, pots).value, Earnings(seats, board, pots).value;
      && a[j] in e
      && (forall x :: x in e && x.0 == a[j].0 ==> x == a[j])
      && (a[i] != a[j] ==> a[i] !in e)
  {
    CollapseOverwrites(Awards(seats, board, pots).value, i, j);
  }

  /**
   * Every entry of `earnings` credits the last player of `pot_order`, whatever the winners:
   * each pot's eligible list is a suffix of `pot_order`, and `p` is its last element.
   */
  lemma AwardsGoToLast(seats: seq<Seat>, board: seq<Card>, order: seq<nat>, pots: seq<(int, seq<nat>)>)
    requires PotsInRange(seats, pots) && order != []
    requires forall i :: 0 <= i < |pots| ==> Suffix(pots[i].1, order)
    requires Earnings(seats, board, pots).Some?
    ensures forall e :: e in Earnings(seats, board, pots).value ==> e.1.0 == order[|order| - 1]
  {
    var awards := Awards(seats, board, pots).value;
    AwardsPointwise(seats, board, pots);
    CollapseSpec(awards);
    forall e | e in Collapse(awards) ensures e.1.0 == order[|order| - 1] {
      var i :| 0 <= i < |awards| && awards[i] == e;
      LastOfSuffix(pots[i].1, order);
    }
  }

  lemma LastOfSuffix(xs: seq<nat>, order: seq<nat>)
    requires xs != [] && Suffix(xs, order)
    ensures xs[|xs| - 1] == order[|order| - 1]
  {
    assert xs[|xs| - 1] == order[|order| - |xs|..][|xs| - 1];
  }

  /** The sum of the shares in `earnings`. */
  function Shares(earned: seq<(int, (nat, string))>): int {
    if earned == [] then 0 else earned[0].0 + Shares(earned[1..])
  }

  /** `player.chips += amount` (main.py:118) for one entry of `earnings`. */
  function CreditShare(seats: seq<Seat>, e: (int, (nat, string))): seq<Seat>
    requires e.1.0 < |seats|
  {
    seats[e.1.0 := seats[e.1.0].(chips := seats[e.1.0].chips + e.0)]
  }

  /** `player.chips += amount` for each entry of `earnings` (main.py:116-118). */
  function Credit(seats: seq<Seat>, earned: seq<(int, (nat, string))>): (r: seq<Seat>)
    requires forall e :: e in earned ==> e.1.0 < |seats|
    ensures |r| == |seats|
    ensures forall j :: 0 <= j < |seats| ==> r[j] == seats[j].(chips := r[j].chips)
    decreases |earned|
  {
    if earned == [] then seats
    else
      assert earned[0] in earned;
      Credit(CreditShare(seats, earned[0]), earned[1..])
  }

  /** Crediting adds exactly the recorded shares to the table's chips. */
  lemma {:induction false} CreditAccounting(seats: seq<Seat>, earned: seq<(int, (nat, string))>)
    requires forall e :: e in earned ==> e.1.0 < |seats|
    ensures Chips(Credit(seats, earned)) == Chips(seats) + Shares(earned)
    decreases |earned|
  {
    if earned != [] {
      var who := earned[0].1.0;
      var s := seats[who];
      assert earned[0] in earned;
      var next := CreditShare(seats, earned[0]);
      ChipsUpdate(seats, who, s.(chips := s.chips + earned[0].0));
      CreditAccounting(next, earned[1..]);
    }
  }

  lemma SuffixInRange(seats: seq<Seat>, xs: seq<nat>, order: seq<nat>)
    requires Suffix(xs, order) && InRange(seats, order)
    ensures InRange(seats, xs)
  {
    forall i | 0 <= i < |xs| ensures xs[i] < |seats| {
      assert xs[i] == order[|order| - |xs| + i];
    }
  }

  /** `finish_round` (main.py:89-121): the credited seats and `round_win_info`. */
  function Settle(seats: seq<Seat>, board: seq<Card>): (r: Option<(seq<Seat>, seq<(int, (nat, string))>)>)
    ensures r.Some? ==> |r.value.0| == |seats|
    ensures r.Some? ==> Chips(r.value.0) == Chips(seats) + Shares(r.value.1)
    ensures r.Some? ==> (forall e :: e in r.value.1 ==> e.1.0 < |seats|) && r.value.0 == Credit(seats, r.value.1)
  {
    var order := PotOrder(seats);
    var pots := SidePots(seats, order);
    assert PotsInRange(seats, pots) by {
      forall i | 0 <= i < |pots| ensures pots[i].1 != [] && InRange(seats, pots[i].1) {
        assert pots[i] in pots;
        SuffixInRange(seats, pots[i].1, order);
      }
    }
    match Earnings(seats, board, pots)
    case None => None
    case Some(earned) =>
      assert forall e :: e in earned ==> e.1.0 < |seats| by {
        assert |pots| > 0 ==> pots[0] in pots && order != [];
        if order != [] {
          assert forall i :: 0 <= i < |pots| ==> Suffix(pots[i].1, order) by {
            forall i | 0 <= i < |pots| ensures Suffix(pots[i].1, order) {
              assert pots[i] in pots;
            }
          }
          AwardsGoToLast(seats, board, order, pots);
        }
      }
      CreditAccounting(seats, earned);
      Some((Credit(seats, earned), earned))
  }
}
