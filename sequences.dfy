/** Facts about sequences shared by the card, deck and evaluator models. */
module Sequences {

  /** No value occurs twice. */
  predicate Distinct<T(==)>(s: seq<T>) {
    forall i, j :: 0 <= i < j < |s| ==> s[i] != s[j]
  }

  /** How often `x` occurs in `s` (Python's `s.count(x)`). */
  function Count<T(==)>(s: seq<T>, x: T): nat {
    multiset(s)[x]
  }

  /** A sequence is distinct exactly when no value has multiplicity above one. */
  lemma {:induction false} DistinctIffSingleCounts<T>(s: seq<T>)
    ensures Distinct(s) <==> forall x :: multiset(s)[x] <= 1
  {
    if |s| > 0 {
      var t := s[1..];
      DistinctIffSingleCounts(t);
      assert s == [s[0]] + t;
      assert multiset(s) == multiset{s[0]} + multiset(t);
      if Distinct(s) {
        assert s[0] !in t;
        assert Distinct(t) by {
          forall i, j | 0 <= i < j < |t| ensures t[i] != t[j] {
            assert t[i] == s[i + 1] && t[j] == s[j + 1];
          }
        }
        forall x ensures multiset(s)[x] <= 1 {
          if x == s[0] {
            assert multiset(t)[x] == 0;
          }
        }
      } else {
        var i, j :| 0 <= i < j < |s| && s[i] == s[j];
        assert s == s[..j] + s[j..];
        assert s[..j][i] == s[i];
        assert s[j..][0] == s[j];
        assert multiset(s)[s[i]] == multiset(s[..j])[s[i]] + multiset(s[j..])[s[i]];
      }
    }
  }

  /** Distinctness depends only on the multiset of values. */
  lemma DistinctPermutation<T>(a: seq<T>, b: seq<T>)
    requires multiset(a) == multiset(b) && Distinct(a)
    ensures Distinct(b)
  {
    DistinctIffSingleCounts(a);
    DistinctIffSingleCounts(b);
  }

  /**
   * Splitting a sequence without duplicates into two parts (as drawing from a deck does)
   * leaves two parts without duplicates that share no value.
   */
  lemma SplitDistinct<T>(s: seq<T>, a: seq<T>, b: seq<T>)
    requires Distinct(s) && multiset(a) + multiset(b) == multiset(s)
    ensures Distinct(a) && Distinct(b)
    ensures forall x :: x in a ==> x !in b
  {
    DistinctIffSingleCounts(s);
    DistinctIffSingleCounts(a);
    DistinctIffSingleCounts(b);
    forall x ensures multiset(a)[x] <= 1 && multiset(b)[x] <= 1 {
      assert multiset(s)[x] == multiset(a)[x] + multiset(b)[x];
    }
    forall x | x in a ensures x !in b {
      assert multiset(a)[x] >= 1;
      assert multiset(s)[x] == multiset(a)[x] + multiset(b)[x];
    }
  }
}
