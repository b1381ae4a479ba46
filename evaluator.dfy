/**
 * The hand evaluator of poker.py (class Evaluator): Python's ordering of int sequences,
 * the helpers `_ranks`, `_flush`, `_straight`, `_two_pair` and `_kind`, the 5-card score
 * and the best score over every 5-card combination.
 *
 * A score is the Python tuple flattened into one int sequence: the category first, then the
 * tie-break ranks. Every category has one fixed tuple shape, so comparing flattened scores
 * agrees with comparing the tuples (see module PyScores). The royal flush, a bare 9 in the
 * source, is the one-element score [9].
 */
module Evaluator {
  import opened Wrappers
  import opened Sequences
  import opened Cards

  // ----- Python's `<` on lists and tuples of ints -----

  /** The first differing position decides; a proper prefix is smaller. */
  predicate LexLess(a: seq<int>, b: seq<int>)
    decreases |a|
  {
    if |a| == 0 then |b| > 0
    else if |b| == 0 then false
    else a[0] < b[0] || (a[0] == b[0] && LexLess(a[1..], b[1..]))
  }

  predicate LexLe(a: seq<int>, b: seq<int>) {
    a == b || LexLess(a, b)
  }

  lemma {:induction false} LexLessIrreflexive(a: seq<int>)
    ensures !LexLess(a, a)
    decreases |a|
  {
    if |a| > 0 {
      LexLessIrreflexive(a[1..]);
    }
  }

  lemma {:induction false} LexLessTransitive(a: seq<int>, b: seq<int>, c: seq<int>)
    requires LexLess(a, b) && LexLess(b, c)
    ensures LexLess(a, c)
    decreases |a|
  {
    if |a| > 0 && a[0] == b[0] && b[0] == c[0] {
      LexLessTransitive(a[1..], b[1..], c[1..]);
    }
  }

  /** Any two int sequences are equal or one is smaller: Python's comparison of them is total. */
  lemma {:induction false} LexTrichotomy(a: seq<int>, b: seq<int>)
    ensures a == b || LexLess(a, b) || LexLess(b, a)
    decreases |a|
  {
    if |a| > 0 && |b| > 0 && a[0] == b[0] {
      LexTrichotomy(a[1..], b[1..]);
      if a[1..] == b[1..] {
        assert a == [a[0]] + a[1..] && b == [b[0]] + b[1..];
      }
    }
  }

  /** Comparing two concatenations whose first parts have equal length. */
  lemma {:induction false} LexLessAppend(a1: seq<int>, a2: seq<int>, b1: seq<int>, b2: seq<int>)
    requires |a1| == |b1|
    ensures LexLess(a1 + a2, b1 + b2) == if a1 == b1 then LexLess(a2, b2) else LexLess(a1, b1)
    decreases |a1|
  {
    if |a1| > 0 {
      LexLessAppend(a1[1..], a2, b1[1..], b2);
      assert (a1 + a2)[1..] == a1[1..] + a2;
      assert (b1 + b2)[1..] == b1[1..] + b2;
      if a1[0] == b1[0] && a1[1..] == b1[1..] {
        assert a1 == [a1[0]] + a1[1..] && b1 == [b1[0]] + b1[1..];
      }
    } else {
      assert a1 + a2 == a2 && b1 + b2 == b2;
    }
  }

  // ----- Sorting, minimum, maximum, range -----

  predicate Ascending(s: seq<int>) {
    forall i, j :: 0 <= i < j < |s| ==> s[i] <= s[j]
  }

  predicate Descending(s: seq<int>) {
    forall i, j :: 0 <= i < j < |s| ==> s[i] >= s[j]
  }

  function Insert(x: int, s: seq<int>): (r: seq<int>)
    requires Ascending(s)
    ensures |r| == |s| + 1 && Ascending(r) && multiset(r) == multiset(s) + multiset{x}
    decreases |s|
  {
    if |s| == 0 || x <= s[0] then [x] + s
    else
      var t := Insert(x, s[1..]);
      assert s == [s[0]] + s[1..];
      InsertAbove(x, s, t);
      [s[0]] + t
  }

  lemma InsertAbove(x: int, s: seq<int>, t: seq<int>)
    requires Ascending(s) && |s| > 0 && s[0] < x
    requires multiset(t) == multiset(s[1..]) + multiset{x}
    ensures forall j :: 0 <= j < |t| ==> s[0] <= t[j]
  {
    forall j | 0 <= j < |t|
      ensures s[0] <= t[j]
    {
      assert t[j] in multiset(t);
      if t[j] != x {
        assert t[j] in multiset(s[1..]);
        var k :| 0 <= k < |s[1..]| && s[1..][k] == t[j];
        assert s[k + 1] == t[j];
      }
    }
  }

  /** Python's `sorted` on a list of ints. */
  function Sorted(s: seq<int>): (r: seq<int>)
    ensures |r| == |s| && Ascending(r) && multiset(r) == multiset(s)
    decreases |s|
  {
    if |s| == 0 then []
    else
      assert s == s[..|s| - 1] + [s[|s| - 1]];
      Insert(s[|s| - 1], Sorted(s[..|s| - 1]))
  }

  function Reverse(s: seq<int>): (r: seq<int>)
    ensures |r| == |s| && multiset(r) == multiset(s)
    ensures forall i :: 0 <= i < |s| ==> r[i] == s[|s| - 1 - i]
    decreases |s|
  {
    if |s| == 0 then []
    else
      assert s == [s[0]] + s[1..];
      Reverse(s[1..]) + [s[0]]
  }

  /** Python's `sorted(s, reverse=True)` on a list of ints. */
  function SortedDesc(s: seq<int>): (r: seq<int>)
    ensures |r| == |s| && Descending(r) && multiset(r) == multiset(s)
  {
    Reverse(Sorted(s))
  }

  lemma MultisetTail(a: seq<int>, b: seq<int>)
    requires |a| > 0 && |b| > 0 && a[0] == b[0] && multiset(a) == multiset(b)
    ensures multiset(a[1..]) == multiset(b[1..])
  {
    assert a == [a[0]] + a[1..] && b == [b[0]] + b[1..];
    assert multiset(a[1..]) == multiset(a) - multiset{a[0]};
    assert multiset(b[1..]) == multiset(b) - multiset{b[0]};
  }

  lemma AscendingHeads(a: seq<int>, b: seq<int>)
    requires Ascending(a) && Ascending(b) && |a| > 0 && |b| > 0 && multiset(a) == multiset(b)
    ensures a[0] == b[0]
  {
    assert a[0] in multiset(b) && b[0] in multiset(a);
    var i :| 0 <= i < |a| && a[i] == b[0];
    var j :| 0 <= j < |b| && b[j] == a[0];
    assert a[0] <= a[i] && b[0] <= b[j];
  }

  lemma DescendingHeads(a: seq<int>, b: seq<int>)
    requires Descending(a) && Descending(b) && |a| > 0 && |b| > 0 && multiset(a) == multiset(b)
    ensures a[0] == b[0]
  {
    assert a[0] in multiset(b) && b[0] in multiset(a);
    var i :| 0 <= i < |a| && a[i] == b[0];
    var j :| 0 <= j < |b| && b[j] == a[0];
    assert a[0] >= a[i] && b[0] >= b[j];
  }

  /** An ascending order of a multiset of ints is unique. */
  lemma {:induction false} AscendingUnique(a: seq<int>, b: seq<int>)
    requires Ascending(a) && Ascending(b) && multiset(a) == multiset(b)
    ensures a == b
    decreases |a|
  {
    assert |a| == |multiset(a)| == |b|;
    if |a| > 0 {
      AscendingHeads(a, b);
      MultisetTail(a, b);
      AscendingUnique(a[1..], b[1..]);
      assert a == [a[0]] + a[1..] && b == [b[0]] + b[1..];
    }
  }

  /** A descending order of a multiset of ints is unique. */
  lemma {:induction false} DescendingUnique(a: seq<int>, b: seq<int>)
    requires Descending(a) && Descending(b) && multiset(a) == multiset(b)
    ensures a == b
    decreases |a|
  {
    assert |a| == |multiset(a)| == |b|;
    if |a| > 0 {
      DescendingHeads(a, b);
      MultisetTail(a, b);
      DescendingUnique(a[1..], b[1..]);
      assert a == [a[0]] + a[1..] && b == [b[0]] + b[1..];
    }
  }

  /** Python's `max` on a non-empty list of ints. */
  function Max(s: seq<int>): (m: int)
    requires |s| > 0
    ensures m in s && forall i :: 0 <= i < |s| ==> s[i] <= m
    decreases |s|
  {
    if |s| == 1 then s[0]
    else
      var t := Max(s[1..]);
      if s[0] >= t then s[0] else t
  }

  /** Python's `min` on a non-empty list of ints. */
  function Min(s: seq<int>): (m: int)
    requires |s| > 0
    ensures m in s && forall i :: 0 <= i < |s| ==> m <= s[i]
    decreases |s|
  {
    if |s| == 1 then s[0]
    else
      var t := Min(s[1..]);
      if s[0] <= t then s[0] else t
  }

  /** Python's `list(range(lo, hi))`. */
  function Range(lo: int, hi: int): (r: seq<int>)
    ensures |r| == if hi > lo then hi - lo else 0
    ensures forall i :: 0 <= i < |r| ==> r[i] == lo + i
  {
    seq(if hi > lo then hi - lo else 0, i => lo + i)
  }

  /** Reordering a non-empty list keeps its maximum. */
  lemma SameMax(a: seq<int>, b: seq<int>)
    requires |a| > 0 && multiset(a) == multiset(b)
    ensures |b| == |a| && Max(b) == Max(a)
  {
    assert |a| == |multiset(a)| == |b|;
    assert Max(a) in multiset(b) && Max(b) in multiset(a);
    var i :| 0 <= i < |b| && b[i] == Max(a);
    var j :| 0 <= j < |a| && a[j] == Max(b);
  }

  /** Reordering a non-empty list keeps its minimum. */
  lemma SameMin(a: seq<int>, b: seq<int>)
    requires |a| > 0 && multiset(a) == multiset(b)
    ensures |b| == |a| && Min(b) == Min(a)
  {
    assert |a| == |multiset(a)| == |b|;
    assert Min(a) in multiset(b) && Min(b) in multiset(a);
    var i :| 0 <= i < |b| && b[i] == Min(a);
    var j :| 0 <= j < |a| && a[j] == Min(b);
  }

  /** The minimum of an ascending list is its first element. */
  lemma {:induction false} AscendingMin(r: seq<int>)
    requires |r| > 0 && Ascending(r)
    ensures Min(r) == r[0]
    decreases |r|
  {
    if |r| > 1 {
      AscendingMin(r[1..]);
    }
  }

  /** The maximum of an ascending list is its last element. */
  lemma {:induction false} AscendingMax(r: seq<int>)
    requires |r| > 0 && Ascending(r)
    ensures Max(r) == r[|r| - 1]
    decreases |r|
  {
    if |r| > 1 {
      AscendingMax(r[1..]);
    }
  }

  /** The first element of an ascending order is the minimum and the last is the maximum. */
  lemma SortedEnds(s: seq<int>)
    requires |s| > 0
    ensures Sorted(s)[0] == Min(s) && Sorted(s)[|s| - 1] == Max(s)
  {
    var r := Sorted(s);
    SameMin(s, r);
    SameMax(s, r);
    AscendingMin(r);
    AscendingMax(r);
  }

  /** In a strictly increasing int sequence, values grow at least as fast as indices. */
  lemma {:induction false} StrictGap(s: seq<int>, i: nat, j: nat)
    requires forall k :: 0 <= k < |s| - 1 ==> s[k] < s[k + 1]
    requires i <= j < |s|
    ensures s[j] - s[i] >= j - i
    decreases j - i
  {
    if i < j {
      StrictGap(s, i + 1, j);
    }
  }

  // ----- The helpers of class Evaluator -----

  /** The rank numbers of a hand, in hand order. */
  function RankList(hand: seq<Card>): (r: seq<int>)
    ensures |r| == |hand| && forall i :: 0 <= i < |hand| ==> r[i] == hand[i].rank
  {
    seq(|hand|, i requires 0 <= i < |hand| => hand[i].rank)
  }

  /** `_ranks` (poker.py:61-62): the rank numbers, highest first. */
  function Ranks(hand: seq<Card>): (r: seq<int>)
    ensures |r| == |hand| && Descending(r) && multiset(r) == multiset(RankList(hand))
  {
    SortedDesc(RankList(hand))
  }

  function Suits(hand: seq<Card>): set<int> {
    set i | 0 <= i < |hand| :: hand[i].suit
  }

  /** `_flush` (poker.py:67-68): the hand holds exactly one suit. */
  predicate Flush(hand: seq<Card>) {
    |Suits(hand)| == 1
  }

  /** A non-empty hand is a flush exactly when every card has the suit of the first. */
  lemma FlushIffOneSuit(hand: seq<Card>)
    requires |hand| > 0
    ensures Flush(hand) <==> forall i :: 0 <= i < |hand| ==> hand[i].suit == hand[0].suit
  {
    var u := Suits(hand);
    assert hand[0].suit in u;
    if forall i :: 0 <= i < |hand| ==> hand[i].suit == hand[0].suit {
      assert u == {hand[0].suit};
    } else {
      var i :| 0 <= i < |hand| && hand[i].suit != hand[0].suit;
      assert {hand[0].suit, hand[i].suit} <= u;
      assert |{hand[0].suit, hand[i].suit}| == 2;
      SubsetCardinality({hand[0].suit, hand[i].suit}, u);
    }
  }

  lemma SubsetCardinality(a: set<int>, b: set<int>)
    requires a <= b
    ensures |a| <= |b|
  {
    assert b == a + (b - a);
  }

  /** `_straight` (poker.py:70-71): the sorted ranks are a run of consecutive numbers. */
  predicate Straight(ranks: seq<int>)
    requires |ranks| > 0
  {
    Sorted(ranks) == Range(Min(ranks), Max(ranks) + 1)
  }

  /** A straight is exactly a set of distinct ranks whose spread is one less than their number. */
  lemma StraightIff(ranks: seq<int>)
    requires |ranks| > 0
    ensures Straight(ranks) <==> Distinct(ranks) && Max(ranks) - Min(ranks) == |ranks| - 1
  {
    if Straight(ranks) {
      StraightIsRun(ranks);
    }
    if Distinct(ranks) && Max(ranks) - Min(ranks) == |ranks| - 1 {
      RunIsStraight(ranks);
    }
  }

  lemma StraightIsRun(ranks: seq<int>)
    requires |ranks| > 0 && Straight(ranks)
    ensures Distinct(ranks) && Max(ranks) - Min(ranks) == |ranks| - 1
  {
    var r := Sorted(ranks);
    assert Distinct(r);
    DistinctPermutation(r, ranks);
  }

  lemma RunIsStraight(ranks: seq<int>)
    requires |ranks| > 0 && Distinct(ranks) && Max(ranks) - Min(ranks) == |ranks| - 1
    ensures Straight(ranks)
  {
    var r := Sorted(ranks);
    SortedEnds(ranks);
    DistinctPermutation(ranks, r);
    ConsecutiveRun(r);
  }

  /** An ascending repetition-free sequence spanning |r| - 1 is a run of consecutive values. */
  lemma ConsecutiveRun(r: seq<int>)
    requires |r| > 0 && Ascending(r) && Distinct(r) && r[|r| - 1] - r[0] == |r| - 1
    ensures r == Range(r[0], r[|r| - 1] + 1)
  {
    var n := |r|;
    forall k | 0 <= k < n - 1
      ensures r[k] < r[k + 1]
    {
      assert r[k] <= r[k + 1] && r[k] != r[k + 1];
    }
    forall i | 0 <= i < n
      ensures r[i] == r[0] + i
    {
      StrictGap(r, 0, i);
      StrictGap(r, i, n - 1);
    }
  }

  /** Ace-low runs are not straights here: a hand holding both an ace and a two never is one. */
  lemma NoWheel(ranks: seq<int>)
    requires |ranks| == 5 && 14 in ranks && 2 in ranks
    ensures !Straight(ranks)
  {
    StraightIff(ranks);
    var i :| 0 <= i < 5 && ranks[i] == 14;
    var j :| 0 <= j < 5 && ranks[j] == 2;
  }

  /** The entries of `rest` that occur exactly `size` times in `ranks`, in order. */
  function WithCount(size: int, rest: seq<int>, ranks: seq<int>): (r: seq<int>)
    ensures forall x :: x in r <==> x in rest && Count(ranks, x) == size
    decreases |rest|
  {
    if |rest| == 0 then []
    else (if Count(ranks, rest[0]) == size then [rest[0]] else []) + WithCount(size, rest[1..], ranks)
  }

  /**
   * `_kind(size, ranks)` (poker.py:80-81): a rank occurring exactly `size` times, or 0 when
   * there is none.
   */
  function Kind(size: int, ranks: seq<int>): (r: int)
    ensures (exists x :: x in ranks && Count(ranks, x) == size) ==> r in ranks && Count(ranks, r) == size
    ensures (forall x :: x in ranks ==> Count(ranks, x) != size) ==> r == 0
  {
    var c := WithCount(size, ranks, ranks);
    if |c| == 0 then 0 else c[0]
  }

  /** The values of `s` without repetitions. */
  function Dedup(s: seq<int>): (r: seq<int>)
    ensures Distinct(r) && forall x :: x in r <==> x in s
    decreases |s|
  {
    if |s| == 0 then []
    else
      var t := Dedup(s[1..]);
      if s[0] in t then t else [s[0]] + t
  }

  /** The ranks that form a pair, highest first (the list `tp` in `_two_pair`). */
  function PairRanks(ranks: seq<int>): (tp: seq<int>)
    ensures Distinct(tp) && Descending(tp)
    ensures forall x :: x in tp <==> x in ranks && Count(ranks, x) == 2
  {
    var d := Dedup(WithCount(2, ranks, ranks));
    var tp := SortedDesc(d);
    DistinctPermutation(d, tp);
    assert forall x :: x in tp <==> x in multiset(d);
    tp
  }

  /** Exactly two different ranks occur exactly twice. */
  predicate TwoPairsIn(ranks: seq<int>) {
    exists a, b :: a in ranks && b in ranks && a > b && Count(ranks, a) == 2 && Count(ranks, b) == 2 &&
      forall x :: x in ranks && Count(ranks, x) == 2 ==> x == a || x == b
  }

  /** There are exactly two pair ranks when `tp` has two entries. */
  lemma TwoPairsIff(ranks: seq<int>)
    ensures |PairRanks(ranks)| == 2 <==> TwoPairsIn(ranks)
  {
    if |PairRanks(ranks)| == 2 {
      TwoEntriesTwoPairs(ranks);
    }
    if TwoPairsIn(ranks) {
      var a, b :| a in ranks && b in ranks && a > b && Count(ranks, a) == 2 && Count(ranks, b) == 2 &&
        forall x :: x in ranks && Count(ranks, x) == 2 ==> x == a || x == b;
      ExactlyTwo(PairRanks(ranks), a, b);
    }
  }

  /** Two entries in `tp` are the only two pair ranks. */
  lemma TwoEntriesTwoPairs(ranks: seq<int>)
    requires |PairRanks(ranks)| == 2
    ensures TwoPairsIn(ranks)
  {
    var tp := PairRanks(ranks);
    TwoPairRanks(ranks);
    assert forall x :: x in tp ==> x == tp[0] || x == tp[1];
  }

  /** `_two_pair` is non-empty exactly when two different ranks each occur exactly twice. */
  lemma TwoPairIff(ranks: seq<int>)
    ensures TwoPair(ranks) != [] <==> TwoPairsIn(ranks)
  {
    TwoPairsIff(ranks);
  }

  /** `_two_pair` (poker.py:73-78): the two pair ranks, highest first, or [] without exactly two pairs. */
  function TwoPair(ranks: seq<int>): (r: seq<int>)
    ensures r != [] <==> |PairRanks(ranks)| == 2
    ensures r != [] ==> |r| == 2 && r[0] > r[1] && r[0] in ranks && r[1] in ranks
    ensures r != [] ==> Count(ranks, r[0]) == 2 && Count(ranks, r[1]) == 2
  {
    var tp := PairRanks(ranks);
    if |tp| == 2 then
      TwoPairRanks(ranks);
      tp
    else []
  }

  /** Two pair ranks come highest first, and each occurs exactly twice among the ranks. */
  lemma TwoPairRanks(ranks: seq<int>)
    requires |PairRanks(ranks)| == 2
    ensures var tp := PairRanks(ranks);
      tp[0] > tp[1] && tp[0] in ranks && tp[1] in ranks && Count(ranks, tp[0]) == 2 && Count(ranks, tp[1]) == 2
  {
    var tp := PairRanks(ranks);
    assert tp[0] in tp && tp[1] in tp;
    assert tp[0] >= tp[1] && tp[0] != tp[1];
  }

  /** A repetition-free sequence has as many entries as values. */
  lemma {:induction false} DistinctValues(s: seq<int>)
    requires Distinct(s)
    ensures |set x | x in s| == |s|
  {
    if |s| > 0 {
      DistinctValues(s[1..]);
      assert (set x | x in s) == {s[0]} + (set x | x in s[1..]);
    }
  }

  /** A repetition-free sequence whose values are two given different values has length two. */
  lemma ExactlyTwo(s: seq<int>, a: int, b: int)
    requires Distinct(s) && a in s && b in s && a != b
    requires forall x :: x in s ==> x == a || x == b
    ensures |s| == 2
  {
    DistinctValues(s);
    assert (set x | x in s) == {a, b};
  }

  // ----- The score of five cards -----

  /** The flattened length of each category's score tuple. */
  function ShapeLength(category: int): nat {
    match category
    case 9 => 1
    case 8 => 2
    case 7 => 3
    case 6 => 3
    case 5 => 6
    case 4 => 2
    case 3 => 7
    case 2 => 8
    case 1 => 7
    case _ => 6
  }

  /** A category 0..9 followed by that category's number of tie-break ranks. */
  predicate WellShaped(r: seq<int>) {
    |r| > 0 && 0 <= r[0] <= 9 && |r| == ShapeLength(r[0])
  }

  /**
   * `_get_evaluation_score` (poker.py:37-59), flattened; a non-zero `_kind` is the truthy one.
   * The royal flush is [9].
   */
  function Score(hand: seq<Card>): (r: seq<int>)
    requires |hand| == 5
    ensures WellShaped(r)
  {
    ScoreOf(Ranks(hand), Flush(hand))
  }

  /** The score of five ranks, given whether the cards share one suit. */
  function ScoreOf(ranks: seq<int>, flush: bool): (r: seq<int>)
    requires |ranks| == 5
    ensures WellShaped(r)
  {
    Select(ranks, flush, Straight(ranks), Max(ranks), Kind(4, ranks), Kind(1, ranks),
      Kind(3, ranks), Kind(2, ranks), TwoPair(ranks))
  }

  /** The branch chain of `_get_evaluation_score` over the results of the helpers. */
  function Select(ranks: seq<int>, flush: bool, straight: bool, high: int, quad: int, single: int,
                  trip: int, pair: int, twoPair: seq<int>): (r: seq<int>)
    requires |ranks| == 5 && (twoPair != [] ==> |twoPair| == 2)
    ensures WellShaped(r)
  {
    if straight && flush then
      if high == 14 then [9] else [8, high]
    else if quad != 0 then [7, quad, single]
    else if trip != 0 && pair != 0 then [6, trip, pair]
    else if flush then [5] + ranks
    else if straight then [4, high]
    else if trip != 0 then [3, trip] + ranks
    else if twoPair != [] then [2] + twoPair + ranks
    else if pair != 0 then [1, pair] + ranks
    else [0] + ranks
  }

  // ----- The categories, stated independently of the helpers -----

  /** Some rank occurs exactly `n` times. */
  predicate HasCount(ranks: seq<int>, n: int) {
    exists x :: x in ranks && Count(ranks, x) == n
  }

  /** Different ranks forming a run of consecutive numbers. */
  predicate IsRun(ranks: seq<int>)
    requires |ranks| > 0
  {
    Distinct(ranks) && Max(ranks) - Min(ranks) == |ranks| - 1
  }

  predicate OneSuit(hand: seq<Card>)
    requires |hand| > 0
  {
    forall i :: 0 <= i < |hand| ==> hand[i].suit == hand[0].suit
  }

  /** The category of five cards by the rules the engine follows, read off the cards in hand order. */
  function Category(hand: seq<Card>): int
    requires |hand| == 5
  {
    CategoryOf(RankList(hand), OneSuit(hand))
  }

  function CategoryOf(rs: seq<int>, oneSuit: bool): int
    requires |rs| == 5
  {
    if IsRun(rs) && oneSuit then (if 14 in rs then 9 else 8)
    else if HasCount(rs, 4) then 7
    else if HasCount(rs, 3) && HasCount(rs, 2) then 6
    else if oneSuit then 5
    else if IsRun(rs) then 4
    else if HasCount(rs, 3) then 3
    else if TwoPairsIn(rs) then 2
    else if HasCount(rs, 2) then 1
    else 0
  }

  /** Reordering the ranks keeps every multiplicity, hence every fact read from multiplicities. */
  lemma PermutationCounts(a: seq<int>, b: seq<int>)
    requires multiset(a) == multiset(b)
    ensures forall x :: x in a <==> x in b
    ensures forall n :: HasCount(a, n) <==> HasCount(b, n)
    ensures TwoPairsIn(a) <==> TwoPairsIn(b)
  {
    assert forall x :: x in a <==> x in multiset(a);
    assert forall x :: x in b <==> x in multiset(b);
  }

  /** Reordering the ranks changes none of the facts the categories are read from. */
  lemma PermutationFacts(a: seq<int>, b: seq<int>)
    requires |a| > 0 && multiset(a) == multiset(b)
    ensures |b| == |a| && Max(a) == Max(b) && Min(a) == Min(b)
    ensures Distinct(a) <==> Distinct(b)
    ensures forall x :: x in a <==> x in b
    ensures forall n :: HasCount(a, n) <==> HasCount(b, n)
    ensures TwoPairsIn(a) <==> TwoPairsIn(b)
  {
    SameMax(a, b);
    SameMin(a, b);
    PermutationCounts(a, b);
    if Distinct(a) {
      DistinctPermutation(a, b);
    }
    if Distinct(b) {
      DistinctPermutation(b, a);
    }
  }

  /** With no rank 0 present, `_kind` is truthy exactly when some rank occurs `n` times. */
  lemma KindTruthy(n: int, ranks: seq<int>)
    requires forall i :: 0 <= i < |ranks| ==> ranks[i] >= 2
    ensures Kind(n, ranks) != 0 <==> HasCount(ranks, n)
  {
    if HasCount(ranks, n) {
      var r := Kind(n, ranks);
      assert r in ranks;
    }
  }

  /** The sorted ranks of valid cards are 2..14. */
  lemma RanksInRange(hand: seq<Card>)
    requires |hand| == 5 && AllValid(hand)
    ensures forall i :: 0 <= i < 5 ==> 2 <= Ranks(hand)[i] <= 14
  {
    var rs, ranks := RankList(hand), Ranks(hand);
    forall i | 0 <= i < 5
      ensures 2 <= ranks[i] <= 14
    {
      assert ranks[i] in multiset(rs);
    }
  }

  /** The sorted ranks carry the facts the categories read off the ranks in hand order. */
  lemma RanksFacts(hand: seq<Card>)
    requires |hand| == 5 && AllValid(hand)
    ensures Straight(Ranks(hand)) == IsRun(RankList(hand))
    ensures Max(Ranks(hand)) == 14 <==> 14 in RankList(hand)
    ensures forall n :: HasCount(Ranks(hand), n) <==> HasCount(RankList(hand), n)
    ensures TwoPairsIn(Ranks(hand)) <==> TwoPairsIn(RankList(hand))
  {
    PermutationFacts(RankList(hand), Ranks(hand));
    RanksInRange(hand);
    StraightIff(Ranks(hand));
  }

  /** `_get_evaluation_score` picks the category the rules assign, checked in the source's order. */
  lemma ScoreCategory(hand: seq<Card>)
    requires |hand| == 5 && AllValid(hand)
    ensures Score(hand)[0] == Category(hand)
  {
    FlushIffOneSuit(hand);
    KindAgrees(hand, 4);
    KindAgrees(hand, 3);
    KindAgrees(hand, 2);
    RanksFacts(hand);
    TwoPairIff(Ranks(hand));
    SelectionAgrees(Ranks(hand), RankList(hand), Flush(hand));
  }

  lemma KindAgrees(hand: seq<Card>, n: int)
    requires |hand| == 5 && AllValid(hand)
    ensures (Kind(n, Ranks(hand)) != 0) == HasCount(RankList(hand), n)
  {
    RanksInRange(hand);
    KindTruthy(n, Ranks(hand));
    PermutationFacts(RankList(hand), Ranks(hand));
  }

  lemma SelectionAgrees(ranks: seq<int>, rs: seq<int>, flush: bool)
    requires |ranks| == 5 && |rs| == 5
    requires Straight(ranks) == IsRun(rs) && (Max(ranks) == 14 <==> 14 in rs)
    requires Kind(4, ranks) != 0 <==> HasCount(rs, 4)
    requires Kind(3, ranks) != 0 <==> HasCount(rs, 3)
    requires Kind(2, ranks) != 0 <==> HasCount(rs, 2)
    requires TwoPair(ranks) != [] <==> TwoPairsIn(rs)
    ensures ScoreOf(ranks, flush)[0] == CategoryOf(rs, flush)
  {
    CategoryOfScore(ranks, flush);
  }

  /** The category `ScoreOf` selects, branch by branch. */
  lemma CategoryOfScore(ranks: seq<int>, flush: bool)
    requires |ranks| == 5
    ensures ScoreOf(ranks, flush)[0] ==
      if Straight(ranks) && flush then (if Max(ranks) == 14 then 9 else 8)
      else if Kind(4, ranks) != 0 then 7
      else if Kind(3, ranks) != 0 && Kind(2, ranks) != 0 then 6
      else if flush then 5
      else if Straight(ranks) then 4
      else if Kind(3, ranks) != 0 then 3
      else if TwoPair(ranks) != [] then 2
      else if Kind(2, ranks) != 0 then 1
      else 0
  {
  }

  // ----- What the tie-break entries mean -----

  /** Two different values together occur at most as often as the sequence is long. */
  lemma {:induction false} CountsOfTwo(s: seq<int>, x: int, y: int)
    requires x != y
    ensures Count(s, x) + Count(s, y) <= |s|
  {
    if |s| > 0 {
      CountsOfTwo(s[1..], x, y);
      assert s == [s[0]] + s[1..];
      assert multiset(s) == multiset{s[0]} + multiset(s[1..]);
    }
  }

  /** A value occurring fewer times than the length leaves room for another value. */
  lemma {:induction false} AnotherValue(s: seq<int>, q: int)
    requires Count(s, q) < |s|
    ensures exists y :: y in s && y != q
  {
    if s[0] == q {
      assert s == [s[0]] + s[1..];
      assert multiset(s) == multiset{s[0]} + multiset(s[1..]);
      AnotherValue(s[1..], q);
      var y :| y in s[1..] && y != q;
      assert y in s;
    } else {
      assert s[0] in s;
    }
  }

  /** A non-zero `_kind(size, …)` is a rank occurring `size` times. */
  lemma KindMeaning(size: int, ranks: seq<int>)
    ensures Kind(size, ranks) != 0 ==> Kind(size, ranks) in ranks && Count(ranks, Kind(size, ranks)) == size
  {
  }

  /** Beside four of a kind in five ranks, the fifth rank occurs once. */
  lemma Kicker(ranks: seq<int>, q: int)
    requires |ranks| == 5 && Count(ranks, q) == 4
    ensures HasCount(ranks, 1)
  {
    AnotherValue(ranks, q);
    var y :| y in ranks && y != q;
    CountsOfTwo(ranks, q, y);
    assert y in multiset(ranks);
  }

  /** Which helper result each entry of a selected score comes from. */
  lemma SelectEntries(ranks: seq<int>, flush: bool, straight: bool, high: int, quad: int, single: int,
                      trip: int, pair: int, twoPair: seq<int>)
    requires |ranks| == 5 && (twoPair != [] ==> |twoPair| == 2)
    ensures var r := Select(ranks, flush, straight, high, quad, single, trip, pair, twoPair);
      && (r[0] == 9 ==> straight && flush && high == 14)
      && (r[0] == 8 ==> straight && flush && r[1] == high != 14)
      && (r[0] == 7 ==> quad != 0 && r[1] == quad && r[2] == single)
      && (r[0] == 6 ==> trip != 0 && pair != 0 && r[1] == trip && r[2] == pair)
      && (r[0] == 5 ==> flush && r[1..] == ranks)
      && (r[0] == 4 ==> straight && r[1] == high)
      && (r[0] == 3 ==> trip != 0 && r[1] == trip && r[2..] == ranks)
      && (r[0] == 2 ==> twoPair != [] && r[1..3] == twoPair && r[3..] == ranks)
      && (r[0] == 1 ==> pair != 0 && r[1] == pair && r[2..] == ranks)
      && (r[0] == 0 ==> r[1..] == ranks)
  {
  }

  /** With four of a kind in five ranks, `_kind(1, …)` is the kicker. */
  lemma QuadKicker(ranks: seq<int>)
    requires |ranks| == 5
    ensures Kind(4, ranks) != 0 ==> Count(ranks, Kind(1, ranks)) == 1
  {
    if Kind(4, ranks) != 0 {
      KindMeaning(4, ranks);
      Kicker(ranks, Kind(4, ranks));
    }
  }

  /**
   * The tie-break entries of each category: the high card of a straight (flush), the quad rank
   * and kicker, the trip and pair ranks, both pair ranks highest first, or all five ranks
   * highest first.
   */
  lemma ScoreTieBreaks(hand: seq<Card>)
    requires |hand| == 5
    ensures var r, ranks := Score(hand), Ranks(hand);
      && (r[0] == 9 ==> Straight(ranks) && Flush(hand) && Max(ranks) == 14)
      && (r[0] == 8 ==> Straight(ranks) && Flush(hand) && r[1] == Max(ranks) != 14)
      && (r[0] == 7 ==> Count(ranks, r[1]) == 4 && Count(ranks, r[2]) == 1)
      && (r[0] == 6 ==> Count(ranks, r[1]) == 3 && Count(ranks, r[2]) == 2)
      && (r[0] == 5 ==> Flush(hand) && r[1..] == ranks)
      && (r[0] == 4 ==> Straight(ranks) && r[1] == Max(ranks))
      && (r[0] == 3 ==> Count(ranks, r[1]) == 3 && r[2..] == ranks)
      && (r[0] == 2 ==> r[1] > r[2] && Count(ranks, r[1]) == 2 && Count(ranks, r[2]) == 2 && r[3..] == ranks)
      && (r[0] == 1 ==> Count(ranks, r[1]) == 2 && r[2..] == ranks)
      && (r[0] == 0 ==> r[1..] == ranks)
  {
    RanksTieBreaks(Ranks(hand), Flush(hand));
  }

  /** The tie-break entries `r` carries, by category, for the ranks `ranks` (highest first). */
  predicate TieBreaks(ranks: seq<int>, flush: bool, straight: bool, high: int, r: seq<int>) {
    && |ranks| == 5 && WellShaped(r)
    && (r[0] == 9 ==> straight && flush && high == 14)
    && (r[0] == 8 ==> straight && flush && r[1] == high != 14)
    && (r[0] == 7 ==> Count(ranks, r[1]) == 4 && Count(ranks, r[2]) == 1)
    && (r[0] == 6 ==> Count(ranks, r[1]) == 3 && Count(ranks, r[2]) == 2)
    && (r[0] == 5 ==> flush && r[1..] == ranks)
    && (r[0] == 4 ==> straight && r[1] == high)
    && (r[0] == 3 ==> Count(ranks, r[1]) == 3 && r[2..] == ranks)
    && (r[0] == 2 ==> r[1] > r[2] && Count(ranks, r[1]) == 2 && Count(ranks, r[2]) == 2 && r[3..] == ranks)
    && (r[0] == 1 ==> Count(ranks, r[1]) == 2 && r[2..] == ranks)
    && (r[0] == 0 ==> r[1..] == ranks)
  }

  /** The score of five ranks carries the tie-break entries of its category. */
  lemma RanksTieBreaks(ranks: seq<int>, flush: bool)
    requires |ranks| == 5
    ensures TieBreaks(ranks, flush, Straight(ranks), Max(ranks), ScoreOf(ranks, flush))
  {
    HelperFacts(ranks);
    SelectTieBreaks(ranks, flush, Straight(ranks), Max(ranks), Kind(4, ranks), Kind(1, ranks),
      Kind(3, ranks), Kind(2, ranks), TwoPair(ranks));
  }

  /** What the results of the helpers of `_get_evaluation_score` say about five ranks. */
  lemma HelperFacts(ranks: seq<int>)
    requires |ranks| == 5
    ensures var twoPair := TwoPair(ranks);
      twoPair != [] ==>
        |twoPair| == 2 && twoPair[0] > twoPair[1] && Count(ranks, twoPair[0]) == 2 && Count(ranks, twoPair[1]) == 2
    ensures Kind(4, ranks) != 0 ==> Count(ranks, Kind(4, ranks)) == 4 && Count(ranks, Kind(1, ranks)) == 1
    ensures Kind(3, ranks) != 0 ==> Count(ranks, Kind(3, ranks)) == 3
    ensures Kind(2, ranks) != 0 ==> Count(ranks, Kind(2, ranks)) == 2
  {
    KindMeaning(4, ranks);
    KindMeaning(3, ranks);
    KindMeaning(2, ranks);
    QuadKicker(ranks);
  }

  /** The tie-break entries of a selected score, given what each helper result means. */
  lemma SelectTieBreaks(ranks: seq<int>, flush: bool, straight: bool, high: int, quad: int, single: int,
                        trip: int, pair: int, twoPair: seq<int>)
    requires |ranks| == 5
    requires twoPair != [] ==>
      |twoPair| == 2 && twoPair[0] > twoPair[1] && Count(ranks, twoPair[0]) == 2 && Count(ranks, twoPair[1]) == 2
    requires quad != 0 ==> Count(ranks, quad) == 4 && Count(ranks, single) == 1
    requires trip != 0 ==> Count(ranks, trip) == 3
    requires pair != 0 ==> Count(ranks, pair) == 2
    ensures TieBreaks(ranks, flush, straight, high, Select(ranks, flush, straight, high, quad, single, trip, pair, twoPair))
  {
    SelectEntries(ranks, flush, straight, high, quad, single, trip, pair, twoPair);
  }

  // ----- The best five of five to seven cards -----

  /** `c` is `s` with some entries left out, the rest kept in order. */
  predicate IsSubseq<T(==)>(c: seq<T>, s: seq<T>)
    decreases |s|
  {
    if |c| == 0 then true
    else if |s| == 0 then false
    else (c[0] == s[0] && IsSubseq(c[1..], s[1..])) || IsSubseq(c, s[1..])
  }

  function Prepend<T>(x: T, cs: seq<seq<T>>): (r: seq<seq<T>>)
    ensures |r| == |cs| && forall i :: 0 <= i < |cs| ==> r[i] == [x] + cs[i]
  {
    seq(|cs|, i requires 0 <= i < |cs| => [x] + cs[i])
  }

  /** `itertools.combinations(s, k)`: the k-entry subsequences of `s`, in the order Python lists them. */
  function Combinations<T(==)>(s: seq<T>, k: nat): (r: seq<seq<T>>)
    decreases |s|
  {
    if k == 0 then [[]]
    else if |s| < k then []
    else Prepend(s[0], Combinations(s[1..], k - 1)) + Combinations(s[1..], k)
  }

  /** An entry of `Prepend(x, cs)` is `x` followed by an entry of `cs`. */
  lemma InPrepend<T>(x: T, cs: seq<seq<T>>, c: seq<T>)
    requires c in Prepend(x, cs)
    ensures |c| > 0 && c[0] == x && c[1..] in cs
  {
    var i :| 0 <= i < |cs| && Prepend(x, cs)[i] == c;
    assert c[1..] == cs[i];
  }

  /** Every combination is a k-entry subsequence of `s`. */
  lemma {:induction false} CombinationsSound<T>(s: seq<T>, k: nat, c: seq<T>)
    requires c in Combinations(s, k)
    ensures |c| == k && IsSubseq(c, s)
    decreases |s|
  {
    if k > 0 && |s| >= k {
      var with, without := Combinations(s[1..], k - 1), Combinations(s[1..], k);
      assert c in Prepend(s[0], with) + without;
      if c in without {
        CombinationsSound(s[1..], k, c);
      } else {
        InPrepend(s[0], with, c);
        CombinationsSound(s[1..], k - 1, c[1..]);
      }
    }
  }

  /** Every k-entry subsequence of `s` is among the combinations. */
  lemma {:induction false} CombinationsComplete<T>(s: seq<T>, k: nat, c: seq<T>)
    requires |c| == k && IsSubseq(c, s)
    ensures c in Combinations(s, k)
    decreases |s|
  {
    if k == 0 {
      assert c == [];
    } else {
      SubseqLength(c, s);
      var with, without := Combinations(s[1..], k - 1), Combinations(s[1..], k);
      assert Combinations(s, k) == Prepend(s[0], with) + without;
      if c[0] == s[0] && IsSubseq(c[1..], s[1..]) {
        CombinationsComplete(s[1..], k - 1, c[1..]);
        var i :| 0 <= i < |with| && with[i] == c[1..];
        assert Prepend(s[0], with)[i] == c;
      } else {
        assert IsSubseq(c, s[1..]);
        CombinationsComplete(s[1..], k, c);
      }
    }
  }

  lemma {:induction false} SubseqLength<T>(c: seq<T>, s: seq<T>)
    requires IsSubseq(c, s)
    ensures |c| <= |s|
    decreases |s|
  {
    if |c| > 0 {
      if c[0] == s[0] && IsSubseq(c[1..], s[1..]) {
        SubseqLength(c[1..], s[1..]);
      } else {
        SubseqLength(c, s[1..]);
      }
    }
  }

  /** A sequence is a subsequence of itself followed by anything. */
  lemma {:induction false} PrefixIsSubseq<T>(s: seq<T>, k: nat)
    requires k <= |s|
    ensures IsSubseq(s[..k], s)
    decreases |s|
  {
    if k > 0 {
      PrefixIsSubseq(s[1..], k - 1);
      assert s[..k][1..] == s[1..][..k - 1];
    }
  }

  /**
   * The first combination is the first k entries, so there is at least one whenever `s` has k
   * entries; with fewer there is none.
   */
  lemma CombinationsExist<T>(s: seq<T>, k: nat)
    ensures |Combinations(s, k)| > 0 <==> k <= |s|
  {
    if k <= |s| {
      PrefixIsSubseq(s, k);
      CombinationsComplete(s, k, s[..k]);
    }
  }

  lemma {:induction false} LexLeTransitive(a: seq<int>, b: seq<int>, c: seq<int>)
    requires LexLe(a, b) && LexLe(b, c)
    ensures LexLe(a, c)
  {
    if LexLess(a, b) && LexLess(b, c) {
      LexLessTransitive(a, b, c);
    }
  }

  /**
   * The position `max(…, key=…)` returns, given the keys: a maximal key, and the first one
   * (Python's `max` keeps the earlier of two equal keys).
   */
  function BestIndex(keys: seq<seq<int>>): (k: nat)
    requires |keys| > 0
    ensures k < |keys|
    ensures forall i :: 0 <= i < |keys| ==> LexLe(keys[i], keys[k])
    ensures forall i :: 0 <= i < k ==> LexLess(keys[i], keys[k])
    decreases |keys|
  {
    var n := |keys|;
    if n == 1 then 0
    else
      var b := BestIndex(keys[..n - 1]);
      LexTrichotomy(keys[b], keys[n - 1]);
      if LexLess(keys[b], keys[n - 1]) then
        LaterMaximum(keys, b);
        n - 1
      else
        b
  }

  /** When the last key beats the best of the others, it beats every one of them. */
  lemma LaterMaximum(keys: seq<seq<int>>, b: nat)
    requires 0 <= b < |keys| - 1 && LexLess(keys[b], keys[|keys| - 1])
    requires forall i :: 0 <= i < |keys| - 1 ==> LexLe(keys[i], keys[b])
    ensures forall i :: 0 <= i < |keys| - 1 ==> LexLess(keys[i], keys[|keys| - 1])
  {
    forall i | 0 <= i < |keys| - 1
      ensures LexLess(keys[i], keys[|keys| - 1])
    {
      if keys[i] != keys[b] {
        LexLessTransitive(keys[i], keys[b], keys[|keys| - 1]);
      }
    }
  }

  /** The score of each hand, in order (the keys `max` compares). */
  function Scores(hands: seq<seq<Card>>): (r: seq<seq<int>>)
    requires forall h :: h in hands ==> |h| == 5
    ensures |r| == |hands| && forall i :: 0 <= i < |hands| ==> r[i] == Score(hands[i]) && WellShaped(r[i])
  {
    seq(|hands|, i requires 0 <= i < |hands| => Score(hands[i]))
  }

  /**
   * `evaluate` (poker.py:32-35): the score of the best five-card subset of the cards. Python's
   * `max` raises on fewer than five cards; that is None here.
   */
  function Evaluate(cards: seq<Card>): (r: Option<seq<int>>)
    ensures r.Some? <==> |cards| >= 5
    ensures r.Some? ==> WellShaped(r.value)
    ensures r.Some? ==> exists h :: |h| == 5 && IsSubseq(h, cards) && Score(h) == r.value
    ensures r.Some? ==> forall h :: |h| == 5 && IsSubseq(h, cards) ==> LexLe(Score(h), r.value)
  {
    var hands := Combinations(cards, 5);
    CombinationsExist(cards, 5);
    if |hands| == 0 then None
    else
      HandsOfFive(cards);
      var b := BestIndex(Scores(hands));
      BestIsMaximal(cards, hands, b);
      Some(Score(hands[b]))
  }

  lemma HandsOfFive(cards: seq<Card>)
    ensures forall h :: h in Combinations(cards, 5) ==> |h| == 5 && IsSubseq(h, cards)
  {
    forall h | h in Combinations(cards, 5)
      ensures |h| == 5 && IsSubseq(h, cards)
    {
      CombinationsSound(cards, 5, h);
    }
  }

  /** A hand whose score is maximal among the combinations beats every five-card subset. */
  lemma BestIsMaximal(cards: seq<Card>, hands: seq<seq<Card>>, b: nat)
    requires hands == Combinations(cards, 5)
    requires forall h :: h in hands ==> |h| == 5
    requires b < |hands|
    requires forall i :: 0 <= i < |hands| ==> LexLe(Scores(hands)[i], Scores(hands)[b])
    ensures forall h :: |h| == 5 && IsSubseq(h, cards) ==> LexLe(Score(h), Score(hands[b]))
  {
    forall h | |h| == 5 && IsSubseq(h, cards)
      ensures LexLe(Score(h), Score(hands[b]))
    {
      CombinationsComplete(cards, 5, h);
      BeatsMember(hands, b, h);
    }
  }

  lemma BeatsMember(hands: seq<seq<Card>>, b: nat, h: seq<Card>)
    requires forall h :: h in hands ==> |h| == 5
    requires b < |hands|
    requires forall i :: 0 <= i < |hands| ==> LexLe(Scores(hands)[i], Scores(hands)[b])
    requires h in hands
    ensures LexLe(Score(h), Score(hands[b]))
  {
    var keys := Scores(hands);
    var i :| 0 <= i < |hands| && hands[i] == h;
    assert LexLe(keys[i], keys[b]);
  }

  /** `rank_meanings` (poker.py:21-30): the name of each category. */
  const RankMeanings: map<int, string> := map[
    9 := "Royal Flush", 8 := "Straight Flush", 7 := "Four of a Kind", 6 := "Full House",
    5 := "Flush", 4 := "Straight", 3 := "Three of a Kind", 2 := "Two Pair", 1 := "One Pair",
    0 := "High Card"]

  /** A hand holding both an ace and a two never scores as a straight or straight flush. */
  lemma AceTwoNeverStraight(hand: seq<Card>)
    requires |hand| == 5 && 14 in RankList(hand) && 2 in RankList(hand)
    ensures Score(hand)[0] != 9 && Score(hand)[0] != 8 && Score(hand)[0] != 4
  {
    var ranks := Ranks(hand);
    assert 14 in multiset(ranks) && 2 in multiset(ranks);
    NoWheel(ranks);
    ScoreTieBreaks(hand);
  }
}
