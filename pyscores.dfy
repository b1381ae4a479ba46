/**
 * The score values `_get_evaluation_score` builds in Python (poker.py:37-59), nested as the
 * source nests them, and Python's comparison of them. Every score is a tuple except the royal
 * flush, which is the bare int 9; Python refuses to order an int against a tuple, so `max` in
 * `evaluate` raises when a royal flush meets any other score. The flattened scores of module
 * Evaluator order exactly as these tuples do, and give the royal flush the score [9].
 */
module PyScores {
  import opened Wrappers
  import opened Cards
  import opened Evaluator

  /** An entry of a score tuple: an int, or a list of ranks. */
  datatype Item = IntItem(n: int) | ListItem(xs: seq<int>)

  /** A score as Python holds it: a bare int or a tuple. */
  datatype PyScore = Bare(n: int) | Tuple(items: seq<Item>)

  /** Python's `<` on two tuple entries; None is the TypeError between an int and a list. */
  function ItemLess(a: Item, b: Item): (r: Option<bool>)
    ensures r.None? <==> a.IntItem? != b.IntItem?
  {
    match (a, b)
    case (IntItem(x), IntItem(y)) => Some(x < y)
    case (ListItem(x), ListItem(y)) => Some(LexLess(x, y))
    case _ => None
  }

  /**
   * Python's `<` on two tuples: the first unequal entries decide (an int never equals a list),
   * and a proper prefix is smaller.
   */
  function TupleLess(a: seq<Item>, b: seq<Item>): Option<bool>
    decreases |a|
  {
    if |a| == 0 || |b| == 0 then Some(|a| < |b|)
    else if a[0] == b[0] then TupleLess(a[1..], b[1..])
    else ItemLess(a[0], b[0])
  }

  /** Python's `<` on two scores; None is the TypeError between an int and a tuple. */
  function PyLess(a: PyScore, b: PyScore): (r: Option<bool>)
    ensures a.Bare? != b.Bare? ==> r.None?
  {
    match (a, b)
    case (Bare(x), Bare(y)) => Some(x < y)
    case (Tuple(x), Tuple(y)) => TupleLess(x, y)
    case _ => None
  }

  /** The Python value of a flattened score: the shape each return statement builds. */
  function Nest(r: seq<int>): (p: PyScore)
    requires WellShaped(r)
    ensures p.Bare? <==> r[0] == 9
  {
    match r[0]
    case 9 => Bare(9)
    case 8 => Tuple([IntItem(8), IntItem(r[1])])
    case 4 => Tuple([IntItem(4), IntItem(r[1])])
    case 7 => Tuple([IntItem(7), IntItem(r[1]), IntItem(r[2])])
    case 6 => Tuple([IntItem(6), IntItem(r[1]), IntItem(r[2])])
    case 5 => Tuple([IntItem(5), ListItem(r[1..])])
    case 3 => Tuple([IntItem(3), IntItem(r[1]), ListItem(r[2..])])
    case 2 => Tuple([IntItem(2), ListItem(r[1..3]), ListItem(r[3..])])
    case 1 => Tuple([IntItem(1), IntItem(r[1]), ListItem(r[2..])])
    case _ => Tuple([IntItem(0), ListItem(r[1..])])
  }

  function FlattenItems(items: seq<Item>): seq<int>
    decreases |items|
  {
    if |items| == 0 then []
    else (match items[0] case IntItem(n) => [n] case ListItem(xs) => xs) + FlattenItems(items[1..])
  }

  /** A Python score written out as one int sequence. */
  function Flatten(p: PyScore): seq<int> {
    match p
    case Bare(n) => [n]
    case Tuple(items) => FlattenItems(items)
  }

  /** Flattening loses nothing: the nested value is rebuilt from the flat score. */
  lemma FlattenNest(r: seq<int>)
    requires WellShaped(r)
    ensures Flatten(Nest(r)) == r
  {
    var p := Nest(r);
    if r[0] != 9 {
      var items := p.items;
      assert items == [items[0]] + items[1..];
      if |items| == 3 {
        assert items[1..] == [items[1]] + items[2..];
        assert FlattenItems(items[1..]) == Flatten(Tuple([items[1]])) + FlattenItems(items[2..]);
      }
    }
  }

  /** `_get_evaluation_score` as written: a bare 9 for a royal flush, a tuple otherwise. */
  function ScoreAsWritten(hand: seq<Card>): (p: PyScore)
    requires |hand| == 5
  {
    Nest(Score(hand))
  }

  // ----- Flattened order agrees with Python's order of the tuples -----

  /** Entry by entry the same kinds, and lists of the same length. */
  predicate Aligned(a: seq<Item>, b: seq<Item>) {
    |a| == |b| &&
    forall i :: 0 <= i < |a| ==>
      a[i].IntItem? == b[i].IntItem? && (a[i].ListItem? ==> |a[i].xs| == |b[i].xs|)
  }

  function FlatItem(x: Item): seq<int> {
    match x
    case IntItem(n) => [n]
    case ListItem(xs) => xs
  }

  /** Aligned tuples compare as their flattenings do, and never raise. */
  lemma {:induction false} AlignedLess(a: seq<Item>, b: seq<Item>)
    requires Aligned(a, b)
    ensures TupleLess(a, b) == Some(LexLess(FlattenItems(a), FlattenItems(b)))
    decreases |a|
  {
    if |a| > 0 {
      var fa, fb := FlatItem(a[0]), FlatItem(b[0]);
      assert FlattenItems(a) == fa + FlattenItems(a[1..]);
      assert FlattenItems(b) == fb + FlattenItems(b[1..]);
      LexLessAppend(fa, FlattenItems(a[1..]), fb, FlattenItems(b[1..]));
      if a[0] == b[0] {
        AlignedLess(a[1..], b[1..]);
      } else if a[0].IntItem? {
        assert fa != fb;
      } else {
        assert fa != fb;
      }
    }
  }

  /**
   * Between scores that are not royal flushes, Python's order of the tuples is the order of the
   * flattened scores, and comparing never raises.
   */
  lemma NestOrder(a: seq<int>, b: seq<int>)
    requires WellShaped(a) && WellShaped(b) && a[0] != 9 && b[0] != 9
    ensures PyLess(Nest(a), Nest(b)) == Some(LexLess(a, b))
  {
    var x, y := Nest(a).items, Nest(b).items;
    if a[0] != b[0] {
      assert x[0] == IntItem(a[0]) && y[0] == IntItem(b[0]);
    } else {
      assert Aligned(x, y);
      AlignedLess(x, y);
      FlattenNest(a);
      FlattenNest(b);
    }
  }

  // ----- `max` over the combinations, as Python runs it -----

  /**
   * `max(…, key=…)` over the given keys as Python runs it: the position of the first greatest
   * key, or None when a comparison raises.
   */
  function MaxAsWritten(keys: seq<PyScore>): (r: Option<nat>)
    requires |keys| > 0
    ensures r.Some? ==> r.value < |keys|
    decreases |keys|
  {
    var n := |keys|;
    if n == 1 then Some(0)
    else
      match MaxAsWritten(keys[..n - 1])
      case None => None
      case Some(b) =>
        match PyLess(keys[b], keys[n - 1])
        case None => None
        case Some(less) => Some(if less then n - 1 else b)
  }

  /** Once a bare int and a tuple are both among the keys, `max` raises. */
  lemma {:induction false} MixedKeysRaise(keys: seq<PyScore>, i: nat, j: nat)
    requires i < |keys| && j < |keys| && keys[i].Bare? && keys[j].Tuple?
    ensures MaxAsWritten(keys) == None
    decreases |keys|
  {
    var n := |keys|;
    var front := keys[..n - 1];
    if i < n - 1 && j < n - 1 {
      MixedKeysRaise(front, i, j);
    } else {
      var k := if i < n - 1 then i else j;
      SameKind(front, k);
    }
  }

  /** Without a raise, `max` over keys of one kind returns a key of that kind. */
  lemma {:induction false} SameKind(keys: seq<PyScore>, k: nat)
    requires k < |keys|
    ensures MaxAsWritten(keys).Some? ==> keys[MaxAsWritten(keys).value].Bare? == keys[k].Bare?
    decreases |keys|
  {
    var n := |keys|;
    if n > 1 && MaxAsWritten(keys).Some? {
      var front := keys[..n - 1];
      var b := MaxAsWritten(front).value;
      if k < n - 1 {
        SameKind(front, k);
      } else {
        assert PyLess(keys[b], keys[n - 1]).Some?;
      }
    }
  }

  /** Without royal flushes, Python's `max` picks the position the flattened order picks. */
  lemma {:induction false} MaxAgrees(flat: seq<seq<int>>)
    requires |flat| > 0
    requires forall i :: 0 <= i < |flat| ==> WellShaped(flat[i]) && flat[i][0] != 9
    ensures MaxAsWritten(NestAll(flat)) == Some(BestIndex(flat))
    decreases |flat|
  {
    var n := |flat|;
    if n > 1 {
      var front := flat[..n - 1];
      assert NestAll(flat)[..n - 1] == NestAll(front);
      MaxAgrees(front);
      var b := BestIndex(front);
      NestOrder(flat[b], flat[n - 1]);
    }
  }

  function NestAll(flat: seq<seq<int>>): (r: seq<PyScore>)
    requires forall i :: 0 <= i < |flat| ==> WellShaped(flat[i])
    ensures |r| == |flat| && forall i :: 0 <= i < |flat| ==> r[i] == Nest(flat[i])
  {
    seq(|flat|, i requires 0 <= i < |flat| => Nest(flat[i]))
  }

  /**
   * `evaluate` (poker.py:32-35) as written: the Python score of the best five cards, or None
   * when Python raises (fewer than five cards, or a royal flush compared with another score).
   */
  function EvaluateAsWritten(cards: seq<Card>): (r: Option<PyScore>)
  {
    var hands := Combinations(cards, 5);
    if |hands| == 0 then None
    else
      HandsOfFive(cards);
      var keys := NestAll(Scores(hands));
      match MaxAsWritten(keys)
      case None => None
      case Some(b) => Some(keys[b])
  }

  /** The scores `max` compares in `evaluate`, one per five-card combination. */
  lemma KeysOf(cards: seq<Card>) returns (flat: seq<seq<int>>)
    requires |cards| >= 5
    ensures forall h :: h in Combinations(cards, 5) ==> |h| == 5
    ensures flat == Scores(Combinations(cards, 5)) && |flat| > 0
    ensures Evaluate(cards) == Some(flat[BestIndex(flat)])
    ensures forall i :: 0 <= i < |flat| ==> WellShaped(flat[i])
    ensures EvaluateAsWritten(cards) ==
      match MaxAsWritten(NestAll(flat)) case None => None case Some(b) => Some(NestAll(flat)[b])
  {
    HandsOfFive(cards);
    CombinationsExist(cards, 5);
    flat := Scores(Combinations(cards, 5));
  }

  /** The position of a five-card subset among the combinations. */
  lemma HandIndex(cards: seq<Card>, h: seq<Card>) returns (i: nat)
    requires |h| == 5 && IsSubseq(h, cards)
    ensures i < |Combinations(cards, 5)| && Combinations(cards, 5)[i] == h
  {
    CombinationsComplete(cards, 5, h);
    i :| i < |Combinations(cards, 5)| && Combinations(cards, 5)[i] == h;
  }

  /**
   * Where the best five cards are not a royal flush, Python's `evaluate` returns the tuple form
   * of the flattened best score.
   */
  lemma EvaluateAgrees(cards: seq<Card>)
    requires Evaluate(cards).Some? && Evaluate(cards).value[0] != 9
    ensures EvaluateAsWritten(cards) == Some(Nest(Evaluate(cards).value))
  {
    var flat := KeysOf(cards);
    NoRoyalBelow(flat);
    MaxAgrees(flat);
  }

  /** Keys no greater than a key of category below 9 are not royal flushes. */
  lemma NoRoyalBelow(flat: seq<seq<int>>)
    requires |flat| > 0 && forall i :: 0 <= i < |flat| ==> |flat[i]| > 0 && WellShaped(flat[i])
    requires flat[BestIndex(flat)][0] != 9
    ensures forall i :: 0 <= i < |flat| ==> flat[i][0] != 9
  {
    var b := BestIndex(flat);
    forall i | 0 <= i < |flat|
      ensures flat[i][0] != 9
    {
      LexLeHead(flat[i], flat[b]);
    }
  }

  /** Only the royal flush itself is at least a royal flush. */
  lemma NineIsTop(s: seq<int>, best: seq<int>)
    requires |s| > 0 && s[0] == 9 && WellShaped(best) && LexLe(s, best)
    ensures best == [9]
  {
    LexLeHead(s, best);
  }

  /** A score no greater than another starts with a category no greater. */
  lemma LexLeHead(a: seq<int>, b: seq<int>)
    requires |a| > 0 && |b| > 0 && LexLe(a, b)
    ensures a[0] <= b[0]
  {
  }

  /**
   * As written, `evaluate` raises whenever the cards hold a royal flush and also a five-card
   * subset that is not one: Python's `max` compares the bare 9 with a tuple.
   */
  lemma RoyalRaises(cards: seq<Card>, royal: seq<Card>, other: seq<Card>)
    requires |royal| == 5 && IsSubseq(royal, cards) && Score(royal)[0] == 9
    requires |other| == 5 && IsSubseq(other, cards) && Score(other)[0] != 9
    ensures Evaluate(cards).Some? && EvaluateAsWritten(cards) == None
  {
    SubseqLength(royal, cards);
    var flat := KeysOf(cards);
    var i := HandIndex(cards, royal);
    var j := HandIndex(cards, other);
    assert flat[i][0] == 9 && flat[j][0] != 9;
    MixedKeysRaise(NestAll(flat), i, j);
  }

  /** Leaving out one entry gives a subsequence. */
  lemma {:induction false} DropOne<T>(s: seq<T>, k: nat)
    requires k < |s|
    ensures IsSubseq(s[..k] + s[k + 1..], s)
    decreases k
  {
    var c := s[..k] + s[k + 1..];
    if k == 0 {
      assert c == s[1..];
      PrefixIsSubseq(s[1..], |s| - 1);
      assert s[1..][..|s| - 1] == s[1..];
    } else {
      DropOne(s[1..], k - 1);
      assert c[1..] == s[1..][..k - 1] + s[1..][k..];
    }
  }

  /** The ace-high run in one suit is category 9. */
  lemma RoyalFlushCategory(hand: seq<Card>)
    requires |hand| == 5 && AllValid(hand) && OneSuit(hand) && RankList(hand) == [14, 13, 12, 11, 10]
    ensures Score(hand)[0] == 9
  {
    ScoreCategory(hand);
    RoyalRun(RankList(hand));
  }

  lemma RoyalRun(rs: seq<int>)
    requires rs == [14, 13, 12, 11, 10]
    ensures IsRun(rs) && 14 in rs
  {
    assert Max(rs) == 14;
    assert Min(rs) <= rs[4] && Min(rs) in rs;
  }

  /** Cards of two suits are never category 9. */
  lemma MixedSuitsNotRoyal(hand: seq<Card>)
    requires |hand| == 5 && hand[0].suit != hand[4].suit
    ensures Score(hand)[0] != 9
  {
    ScoreTieBreaks(hand);
    FlushIffOneSuit(hand);
  }

  /**
   * Ace to ten of spades with the two of clubs: the corrected evaluator scores the royal flush
   * [9], while the source's `evaluate` raises TypeError.
   */
  lemma RoyalWithSixCards(cards: seq<Card>)
    requires cards == [Card(14, 1), Card(13, 1), Card(12, 1), Card(11, 1), Card(10, 1), Card(2, 0)]
    ensures Evaluate(cards) == Some([9])
    ensures EvaluateAsWritten(cards) == None
  {
    var royal, other := cards[..5], cards[..4] + cards[5..];
    PrefixIsSubseq(cards, 5);
    DropOne(cards, 4);
    assert RankList(royal) == [14, 13, 12, 11, 10];
    RoyalFlushCategory(royal);
    MixedSuitsNotRoyal(other);
    RoyalRaises(cards, royal, other);
    RoyalIsBest(cards, royal);
  }

  /** Nothing beats a royal flush: with one among the cards, the best score is [9]. */
  lemma RoyalIsBest(cards: seq<Card>, royal: seq<Card>)
    requires |royal| == 5 && IsSubseq(royal, cards) && Score(royal)[0] == 9
    ensures Evaluate(cards) == Some([9])
  {
    SubseqLength(royal, cards);
    var best := Evaluate(cards).value;
    NineIsTop(Score(royal), best);
  }
}
