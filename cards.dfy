/**
 * Cards as the engine builds them from two-character codes such as "Ts" or "2c"
 * (class Card of poker.py), and the 52 codes a fresh deck is built from.
 */
module Cards {
  import opened Wrappers
  import opened Sequences

  /** A card: rank number 2..14 (Ace is 14) and suit number 0..3 (clubs, spades, hearts, diamonds). */
  datatype Card = Card(rank: int, suit: int)

  predicate ValidCard(c: Card) {
    2 <= c.rank <= 14 && 0 <= c.suit <= 3
  }

  predicate AllValid(cs: seq<Card>) {
    forall i :: 0 <= i < |cs| ==> ValidCard(cs[i])
  }

  /** The string whose index is the rank number; the two leading dots pad '2' to index 2. */
  const RankLookup: string := "..23456789TJQKA"
  /** The rank characters in deck order. */
  const RankChars: string := "23456789TJQKA"
  /** The suit characters; the index is the suit number. */
  const SuitChars: string := "cshd"

  /** `str.upper` on one ASCII character. */
  function Upper(ch: char): char {
    if 'a' <= ch <= 'z' then (ch as int - 32) as char else ch
  }

  /** `str.lower` on one ASCII character. */
  function Lower(ch: char): char {
    if 'A' <= ch <= 'Z' then (ch as int + 32) as char else ch
  }

  /** `s.index(ch)`: the first position of `ch` in `s`; None where Python raises ValueError. */
  function IndexOf(s: string, ch: char): (r: Option<nat>)
    ensures r.None? <==> ch !in s
    ensures r.Some? ==> r.value < |s| && s[r.value] == ch && ch !in s[..r.value]
  {
    if |s| == 0 then None
    else if s[0] == ch then Some(0)
    else match IndexOf(s[1..], ch)
      case None => None
      case Some(k) =>
        assert s[..k + 1] == [s[0]] + s[1..][..k];
        Some(k + 1)
  }

  /**
   * `Card(code)` exactly as poker.py:5-9 writes it: a code shorter than two characters raises
   * IndexError, a character missing from the lookup strings raises ValueError. Because the rank
   * lookup string starts with '.', the character '.' is accepted as rank number 0.
   */
  function ParseCardAsWritten(code: string): Option<Card> {
    if |code| < 2 then None
    else match (IndexOf(RankLookup, Upper(code[0])), IndexOf(SuitChars, Lower(code[1])))
      case (Some(rank), Some(suit)) => Some(Card(rank, suit))
      case _ => None
  }

  /**
   * `Card(code)` with the padding character refused: the rank character is one of
   * 2-9, T, J, Q, K, A in either case and the suit character one of c, s, h, d in either case.
   */
  function ParseCard(code: string): (r: Option<Card>)
    ensures r.Some? <==> |code| >= 2 && Upper(code[0]) in RankChars && Lower(code[1]) in SuitChars
    ensures r.Some? ==> ValidCard(r.value)
  {
    if |code| < 2 || Upper(code[0]) == '.' then None else ParseCardAsWritten(code)
  }

  /** The two-character code of a valid card: upper-case rank character, lower-case suit character. */
  function Code(c: Card): string
    requires ValidCard(c)
  {
    [RankChars[c.rank - 2], SuitChars[c.suit]]
  }

  /** Python's `s.index(s[k])` is `k` exactly when `s[k]` does not occur earlier. */
  lemma IndexOfFirst(s: string, k: nat)
    requires k < |s| && s[k] !in s[..k]
    ensures IndexOf(s, s[k]) == Some(k)
  {
  }

  lemma RankIndex(rank: int)
    requires 2 <= rank <= 14
    ensures IndexOf(RankLookup, RankChars[rank - 2]) == Some(rank)
  {
    assert RankLookup[rank] == RankChars[rank - 2];
    match rank
    case 2 => IndexOfFirst(RankLookup, 2);
    case 3 => IndexOfFirst(RankLookup, 3);
    case 4 => IndexOfFirst(RankLookup, 4);
    case 5 => IndexOfFirst(RankLookup, 5);
    case 6 => IndexOfFirst(RankLookup, 6);
    case 7 => IndexOfFirst(RankLookup, 7);
    case 8 => IndexOfFirst(RankLookup, 8);
    case 9 => IndexOfFirst(RankLookup, 9);
    case 10 => IndexOfFirst(RankLookup, 10);
    case 11 => IndexOfFirst(RankLookup, 11);
    case 12 => IndexOfFirst(RankLookup, 12);
    case 13 => IndexOfFirst(RankLookup, 13);
    case 14 => IndexOfFirst(RankLookup, 14);
  }

  lemma SuitIndex(suit: int)
    requires 0 <= suit <= 3
    ensures IndexOf(SuitChars, SuitChars[suit]) == Some(suit)
  {
    match suit
    case 0 => IndexOfFirst(SuitChars, 0);
    case 1 => IndexOfFirst(SuitChars, 1);
    case 2 => IndexOfFirst(SuitChars, 2);
    case 3 => IndexOfFirst(SuitChars, 3);
  }

  /** The code of a valid card is already in the case the parser folds to, and is no padding. */
  lemma CodeCase(c: Card)
    requires ValidCard(c)
    ensures Upper(Code(c)[0]) == RankChars[c.rank - 2] != '.' && Lower(Code(c)[1]) == SuitChars[c.suit]
  {
    match c.rank
    case 2 => case 3 => case 4 => case 5 => case 6 => case 7 => case 8 =>
    case 9 => case 10 => case 11 => case 12 => case 13 => case 14 =>
  }

  /** Parsing the code of a valid card gives back that card. */
  lemma ParseCode(c: Card)
    requires ValidCard(c)
    ensures ParseCard(Code(c)) == Some(c)
  {
    RankIndex(c.rank);
    SuitIndex(c.suit);
    CodeCase(c);
    assert ParseCardAsWritten(Code(c)) == Some(c);
  }

  /**
   * A parsed card determines its code up to case: the rank character is read case-insensitively
   * and the suit character too, and nothing else of the code matters.
   */
  lemma ParseCanonical(code: string, c: Card)
    requires ParseCard(code) == Some(c)
    ensures Code(c) == [Upper(code[0]), Lower(code[1])]
  {
    ParsedChars(code, c);
    LookupShift(c.rank);
  }

  /**
   * As written, the padding character '.' is a rank: the code ".c" makes a card of rank 0,
   * which no deck holds; the corrected parser refuses it.
   */
  lemma DotParsesAsRankZero()
    ensures ParseCardAsWritten(".c") == Some(Card(0, 0))
    ensures ParseCard(".c") == None
  {
    assert Upper('.') == '.';
    assert IndexOf(RankLookup, '.') == Some(0);
    assert IndexOf(SuitChars, 'c') == Some(0);
  }

  /** Past the two padding dots, the rank lookup string is the rank characters. */
  lemma LookupShift(rank: int)
    requires 2 <= rank <= 14
    ensures RankChars[rank - 2] == RankLookup[rank]
  {
    match rank
    case 2 => case 3 => case 4 => case 5 => case 6 => case 7 => case 8 =>
    case 9 => case 10 => case 11 => case 12 => case 13 => case 14 =>
  }

  /** The characters a parsed card was read from, folded to the case of the lookup strings. */
  lemma ParsedChars(code: string, c: Card)
    requires ParseCardAsWritten(code) == Some(c)
    ensures c.rank < |RankLookup| && RankLookup[c.rank] == Upper(code[0])
    ensures c.suit < |SuitChars| && SuitChars[c.suit] == Lower(code[1])
  {
    var ri, si := IndexOf(RankLookup, Upper(code[0])), IndexOf(SuitChars, Lower(code[1]));
    assert ri == Some(c.rank) && si == Some(c.suit);
  }

  /** The corrected parser differs from the code as written only on the padding character. */
  lemma ParseAgreesExceptPadding(code: string)
    requires |code| >= 2 && Upper(code[0]) != '.'
    ensures ParseCard(code) == ParseCardAsWritten(code)
  {
  }

  /** The code of the i-th card that `refill` builds from `product('23456789TJQKA', 'cshd')`. */
  function DeckCode(i: nat): string
    requires i < 52
  {
    [RankChars[i / 4], SuitChars[i % 4]]
  }

  /** The 52 cards of a fresh deck in the order `refill` builds them: rank-major, suits c, s, h, d. */
  function FullDeck(): (d: seq<Card>)
    ensures |d| == 52
  {
    seq(52, i requires 0 <= i < 52 => Card(2 + i / 4, i % 4))
  }

  /** Each card of the fresh deck is the parse of the matching code of the product (poker.py:92-94). */
  lemma DeckCodesParse(i: nat)
    requires i < 52
    ensures ParseCard(DeckCode(i)) == Some(FullDeck()[i])
  {
    var c := FullDeck()[i];
    assert ValidCard(c);
    assert DeckCode(i) == Code(c);
    ParseCode(c);
  }

  /** The fresh deck holds 52 valid, pairwise different cards: every rank with every suit. */
  lemma FullDeckComplete()
    ensures AllValid(FullDeck()) && Distinct(FullDeck())
    ensures forall c :: ValidCard(c) ==> c in FullDeck()
  {
    var d := FullDeck();
    forall c | ValidCard(c) ensures c in d {
      var i := 4 * (c.rank - 2) + c.suit;
      assert d[i] == c;
    }
  }
}
