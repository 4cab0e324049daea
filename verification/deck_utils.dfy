/** The deck engine: building the 52-card deck, the Fisher-Yates shuffle,
    soft-ace hand scoring, the natural-blackjack test and dealing from the end. */
module DeckUtils {
  import opened Types

  // ---------------------------------------------------------------------------
  // Deck construction
  // ---------------------------------------------------------------------------

  /** The value createDeck gives a face: the rank for pips, 10 for court cards, 1 for an ace. */
  function FaceValue(f: Face): nat
    requires ValidFace(f)
  {
    match f
    case Pip(n) => n
    case Ace => 1
    case _ => 10
  }

  predicate ValidFace(f: Face)
  {
    f.Pip? ==> 2 <= f.rank <= 10
  }

  /** A card createDeck can produce. */
  predicate StandardCard(c: Card)
  {
    ValidFace(c.face) && c.value == FaceValue(c.face)
  }

  const Suits: seq<Suit> := [Hearts, Diamonds, Clubs, Spades]

  /** The k-th face createDeck pushes for a suit: 2..10, then J, Q, K, A. */
  function FaceAt(k: nat): (f: Face)
    requires k < 13
    ensures ValidFace(f)
  {
    if k <= 8 then Pip(k + 2)
    else if k == 9 then Jack
    else if k == 10 then Queen
    else if k == 11 then King
    else Ace
  }

  /** The position of a valid face within a suit. */
  function FaceIndex(f: Face): (k: nat)
    requires ValidFace(f)
    ensures k < 13 && FaceAt(k) == f
  {
    match f
    case Pip(n) => n - 2
    case Jack => 9
    case Queen => 10
    case King => 11
    case Ace => 12
  }

  predicate Distinct<T(==)>(s: seq<T>)
  {
    forall i, j :: 0 <= i < j < |s| ==> s[i] != s[j]
  }

  /** The 13 cards of one suit, in the order createDeck pushes them. */
  function SuitCards(s: Suit): (r: seq<Card>)
    ensures |r| == 13
    ensures forall k :: 0 <= k < 13 ==> r[k] == Card(s, FaceValue(FaceAt(k)), FaceAt(k))
  {
    seq(13, k requires 0 <= k < 13 => Card(s, FaceValue(FaceAt(k)), FaceAt(k)))
  }

  /** The unshuffled deck createDeck assembles: hearts, diamonds, clubs, spades. */
  function OrderedDeck(): seq<Card>
  {
    SuitCards(Hearts) + SuitCards(Diamonds) + SuitCards(Clubs) + SuitCards(Spades)
  }

  /** Every standard card exactly once, and nothing else. */
  ghost predicate CompleteDeck(d: seq<Card>)
  {
    forall c: Card :: multiset(d)[c] == if StandardCard(c) then 1 else 0
  }

  /** What a deck count selects: the cards of one suit or the cards of one face. */
  datatype Criterion = OfSuit(suit: Suit) | OfFace(face: Face)

  predicate Matches(c: Card, k: Criterion)
  {
    match k
    case OfSuit(s) => c.suit == s
    case OfFace(f) => c.face == f
  }

  function Count(d: seq<Card>, k: Criterion): nat
  {
    if |d| == 0 then 0 else (if Matches(d[0], k) then 1 else 0) + Count(d[1..], k)
  }

  /** A duplicate-free sequence holds each of its elements once. */
  lemma {:induction false} DistinctMultiset<T>(s: seq<T>, x: T)
    requires Distinct(s)
    ensures multiset(s)[x] == if x in s then 1 else 0
  {
    if |s| > 0 {
      assert s == [s[0]] + s[1..];
      assert Distinct(s[1..]) by {
        forall i, j | 0 <= i < j < |s[1..]| ensures s[1..][i] != s[1..][j] {
          assert s[1..][i] == s[i + 1] && s[1..][j] == s[j + 1];
        }
      }
      assert s[0] !in s[1..] by {
        forall k | 0 <= k < |s[1..]| ensures s[1..][k] != s[0] {
          assert s[1..][k] == s[k + 1];
        }
      }
      DistinctMultiset(s[1..], x);
    }
  }

  /** A sequence that holds no element twice is duplicate-free. */
  lemma AtMostOnceIsDistinct<T>(s: seq<T>)
    requires forall x :: multiset(s)[x] <= 1
    ensures Distinct(s)
  {
    forall i, j | 0 <= i < j < |s| ensures s[i] != s[j] {
      assert s == s[..i] + [s[i]] + s[i + 1..j] + [s[j]] + s[j + 1..];
      assert multiset(s)[s[i]] >= if s[i] == s[j] then 2 else 1;
    }
  }

  /** One suit holds each standard card of that suit exactly once. */
  lemma SuitCardsMultiset(t: Suit, c: Card)
    ensures multiset(SuitCards(t))[c] == if c.suit == t && StandardCard(c) then 1 else 0
  {
    var r := SuitCards(t);
    assert Distinct(r) by {
      forall i, j | 0 <= i < j < |r| ensures r[i] != r[j] {
        assert FaceIndex(r[i].face) == i && FaceIndex(r[j].face) == j;
      }
    }
    DistinctMultiset(r, c);
    if c.suit == t && StandardCard(c) {
      assert r[FaceIndex(c.face)] == c;
    }
  }

  /** The ordered deck is complete and has 52 cards. */
  lemma OrderedDeckComplete()
    ensures |OrderedDeck()| == 52
    ensures CompleteDeck(OrderedDeck())
  {
    forall c: Card ensures multiset(OrderedDeck())[c] == if StandardCard(c) then 1 else 0 {
      SuitCardsMultiset(Hearts, c);
      SuitCardsMultiset(Diamonds, c);
      SuitCardsMultiset(Clubs, c);
      SuitCardsMultiset(Spades, c);
    }
  }

  lemma {:induction false} CountAppend(a: seq<Card>, b: seq<Card>, k: Criterion)
    ensures Count(a + b, k) == Count(a, k) + Count(b, k)
  {
    if |a| == 0 {
      assert a + b == b;
    } else {
      assert (a + b)[1..] == a[1..] + b;
      CountAppend(a[1..], b, k);
    }
  }

  /** Taking card i out of a deck lowers each count by whether that card matches. */
  lemma CountRemove(b: seq<Card>, i: nat, k: Criterion)
    requires i < |b|
    ensures Count(b, k) == (if Matches(b[i], k) then 1 else 0) + Count(b[..i] + b[i + 1..], k)
  {
    assert b == b[..i] + ([b[i]] + b[i + 1..]);
    CountAppend(b[..i], [b[i]] + b[i + 1..], k);
    CountAppend(b[..i], b[i + 1..], k);
    assert ([b[i]] + b[i + 1..])[1..] == b[i + 1..];
  }

  /** Removing the same card from two rearrangements leaves rearrangements. */
  lemma MultisetRemove(a: seq<Card>, b: seq<Card>, i: nat)
    requires |a| > 0 && i < |b| && a[0] == b[i] && multiset(a) == multiset(b)
    ensures multiset(a[1..]) == multiset(b[..i] + b[i + 1..])
  {
    assert a == [a[0]] + a[1..];
    assert b == b[..i] + [b[i]] + b[i + 1..];
    assert multiset(a[1..]) == multiset(a) - multiset{a[0]};
    assert multiset(b[..i] + b[i + 1..]) == multiset(b) - multiset{b[i]};
  }

  /** Counting depends only on which cards a deck holds, not on their order. */
  lemma {:induction false} CountPermutation(a: seq<Card>, b: seq<Card>, k: Criterion)
    requires multiset(a) == multiset(b)
    ensures Count(a, k) == Count(b, k)
    decreases |a|
  {
    if |a| == 0 {
      assert |b| == |multiset(b)| == 0;
    } else {
      var x := a[0];
      assert x in multiset(b);
      var i :| 0 <= i < |b| && b[i] == x;
      MultisetRemove(a, b, i);
      CountPermutation(a[1..], b[..i] + b[i + 1..], k);
      CountRemove(b, i, k);
    }
  }


  lemma {:induction false} CountOneSuit(d: seq<Card>, t: Suit, s: Suit)
    requires forall i :: 0 <= i < |d| ==> d[i].suit == t
    ensures Count(d, OfSuit(s)) == if t == s then |d| else 0
  {
    if |d| > 0 {
      assert forall i :: 0 <= i < |d[1..]| ==> d[1..][i] == d[i + 1];
      CountOneSuit(d[1..], t, s);
    }
  }

  /** In a sequence whose faces are pairwise different, a face occurs at most once. */
  lemma {:induction false} CountDistinctFaces(d: seq<Card>, f: Face)
    requires forall i, j :: 0 <= i < j < |d| ==> d[i].face != d[j].face
    ensures Count(d, OfFace(f)) == if exists i :: 0 <= i < |d| && d[i].face == f then 1 else 0
  {
    if |d| > 0 {
      assert forall i :: 0 <= i < |d[1..]| ==> d[1..][i] == d[i + 1];
      CountDistinctFaces(d[1..], f);
      if d[0].face == f {
        assert forall i :: 0 <= i < |d[1..]| ==> d[1..][i].face != f by {
          forall i | 0 <= i < |d[1..]| ensures d[1..][i].face != f {
            assert d[1..][i] == d[i + 1];
          }
        }
      } else if exists i :: 0 <= i < |d| && d[i].face == f {
        var i :| 0 <= i < |d| && d[i].face == f;
        assert d[1..][i - 1].face == f;
      }
    }
  }

  lemma SuitCardsCounts(t: Suit, s: Suit, f: Face)
    ensures Count(SuitCards(t), OfSuit(s)) == if t == s then 13 else 0
    ensures Count(SuitCards(t), OfFace(f)) == if ValidFace(f) then 1 else 0
  {
    var r := SuitCards(t);
    CountOneSuit(r, t, s);
    assert forall i, j :: 0 <= i < j < |r| ==> r[i].face != r[j].face by {
      forall i, j | 0 <= i < j < |r| ensures r[i].face != r[j].face {
        assert FaceIndex(r[i].face) == i && FaceIndex(r[j].face) == j;
      }
    }
    CountDistinctFaces(r, f);
    if ValidFace(f) {
      assert r[FaceIndex(f)].face == f;
    }
  }

  /** Deck facts every fresh deck satisfies. */
  ghost predicate FreshDeckFacts(d: seq<Card>)
  {
    && |d| == 52
    && CompleteDeck(d)
    && Distinct(d)
    && (forall s: Suit :: Count(d, OfSuit(s)) == 13)
    && (forall f: Face :: Count(d, OfFace(f)) == if ValidFace(f) then 4 else 0)
  }

  lemma OrderedDeckSuitCount(s: Suit)
    ensures Count(OrderedDeck(), OfSuit(s)) == 13
  {
    var h, di, c, sp := SuitCards(Hearts), SuitCards(Diamonds), SuitCards(Clubs), SuitCards(Spades);
    CountAppend(h + di + c, sp, OfSuit(s));
    CountAppend(h + di, c, OfSuit(s));
    CountAppend(h, di, OfSuit(s));
    SuitCardsCounts(Hearts, s, Ace);
    SuitCardsCounts(Diamonds, s, Ace);
    SuitCardsCounts(Clubs, s, Ace);
    SuitCardsCounts(Spades, s, Ace);
  }

  lemma OrderedDeckFaceCount(f: Face)
    ensures Count(OrderedDeck(), OfFace(f)) == if ValidFace(f) then 4 else 0
  {
    var h, di, c, sp := SuitCards(Hearts), SuitCards(Diamonds), SuitCards(Clubs), SuitCards(Spades);
    CountAppend(h + di + c, sp, OfFace(f));
    CountAppend(h + di, c, OfFace(f));
    CountAppend(h, di, OfFace(f));
    SuitCardsCounts(Hearts, Hearts, f);
    SuitCardsCounts(Diamonds, Hearts, f);
    SuitCardsCounts(Clubs, Hearts, f);
    SuitCardsCounts(Spades, Hearts, f);
  }

  // ---------------------------------------------------------------------------
  // Fisher-Yates shuffle
  // ---------------------------------------------------------------------------

  /** Exchange positions i and j. */
  function Swap(d: seq<Card>, i: nat, j: nat): (r: seq<Card>)
    requires i < |d| && j < |d|
    ensures |r| == |d|
    ensures multiset(r) == multiset(d)
    ensures r[i] == d[j] && r[j] == d[i]
    ensures forall k :: 0 <= k < |d| && k != i && k != j ==> r[k] == d[k]
  {
    d[i := d[j]][j := d[i]]
  }

  /** The shuffle loop from index i down to 1. `choose(i)` stands for the random
      draw `Math.floor(Math.random() * (i + 1))`; reducing it modulo i + 1 lets
      the oracle pick any index in [0, i] and nothing else. */
  function ShuffleFrom(d: seq<Card>, i: nat, choose: nat -> nat): (r: seq<Card>)
    requires i < |d|
    ensures |r| == |d|
    ensures multiset(r) == multiset(d)
    decreases i
  {
    if i == 0 then d
    else ShuffleFrom(Swap(d, i, choose(i) % (i + 1)), i - 1, choose)
  }

  /** shuffleDeck: a fresh array holding a permutation of the input. */
  function ShuffleDeck(d: seq<Card>, choose: nat -> nat): (r: seq<Card>)
    ensures |r| == |d|
    ensures multiset(r) == multiset(d)
  {
    if |d| == 0 then d else ShuffleFrom(d, |d| - 1, choose)
  }

  /** createDeck: the ordered 52 cards, shuffled. */
  function CreateDeck(choose: nat -> nat): seq<Card>
  {
    ShuffleDeck(OrderedDeck(), choose)
  }

  /** Whatever the random draws, createDeck yields 52 distinct cards: 13 of each
      suit, 4 of each face, every standard card exactly once. */
  lemma CreateDeckIsFresh(choose: nat -> nat)
    ensures FreshDeckFacts(CreateDeck(choose))
  {
    var d := CreateDeck(choose);
    OrderedDeckComplete();
    assert multiset(d) == multiset(OrderedDeck());
    AtMostOnceIsDistinct(d);
    forall s: Suit ensures Count(d, OfSuit(s)) == 13 {
      OrderedDeckSuitCount(s);
      CountPermutation(d, OrderedDeck(), OfSuit(s));
    }
    forall f: Face ensures Count(d, OfFace(f)) == if ValidFace(f) then 4 else 0 {
      OrderedDeckFaceCount(f);
      CountPermutation(d, OrderedDeck(), OfFace(f));
    }
  }
  /** The deck a deal draws from: a freshly created deck when fewer than
      `minCards` cards remain, the current deck otherwise. */
  function Replenished(deck: seq<Card>, minCards: nat, choose: nat -> nat): (d: seq<Card>)
    requires minCards <= 52
    ensures |deck| < minCards ==> FreshDeckFacts(d)
    ensures |deck| >= minCards ==> d == deck
    ensures |d| >= minCards
  {
    if |deck| < minCards then CreateDeckIsFresh(choose); CreateDeck(choose) else deck
  }


  // ---------------------------------------------------------------------------
  // Hand scoring
  // ---------------------------------------------------------------------------

  /** Sum of the values of the cards whose face is not an ace. */
  function NonAceSum(cards: seq<Card>): nat
  {
    if |cards| == 0 then 0
    else (if cards[0].face == Ace then 0 else cards[0].value) + NonAceSum(cards[1..])
  }

  /** Number of cards whose face is an ace; their `value` field is never read. */
  function AceCount(cards: seq<Card>): nat
  {
    if |cards| == 0 then 0
    else (if cards[0].face == Ace then 1 else 0) + AceCount(cards[1..])
  }

  /** The ace loop: each ace adds 11 when the running score stays within 21, else 1. */
  function AddAces(score: int, aces: nat): int
    decreases aces
  {
    if aces == 0 then score
    else AddAces(if score + 11 <= 21 then score + 11 else score + 1, aces - 1)
  }

  /** Number of aces the ace loop counts as 11. */
  function ElevensCounted(score: int, aces: nat): nat
    decreases aces
  {
    if aces == 0 then 0
    else if score + 11 <= 21 then 1 + ElevensCounted(score + 11, aces - 1)
    else ElevensCounted(score + 1, aces - 1)
  }

  /** calculateHandScore. */
  function HandScore(cards: seq<Card>): int
  {
    AddAces(NonAceSum(cards), AceCount(cards))
  }

  /** The hand holds an ace and the greedy rule counts one of them as 11. */
  predicate IsSoft(cards: seq<Card>)
  {
    AceCount(cards) >= 1 && NonAceSum(cards) + 11 <= 21
  }

  /** The greedy ace rule in closed form: at most one ace is counted as 11,
      and one is exactly when the non-ace total leaves room for 11. */
  lemma {:induction false} AddAcesClosedForm(score: int, aces: nat)
    requires score >= 0
    ensures AddAces(score, aces) == if aces >= 1 && score + 11 <= 21 then score + aces + 10 else score + aces
    ensures ElevensCounted(score, aces) == if aces >= 1 && score + 11 <= 21 then 1 else 0
    decreases aces
  {
    if aces > 0 {
      if score + 11 <= 21 {
        AddAcesClosedForm(score + 11, aces - 1);
      } else {
        AddAcesClosedForm(score + 1, aces - 1);
      }
    }
  }

  /** calculateHandScore is the non-ace sum plus one per ace, plus 10 more when soft. */
  lemma HandScoreClosedForm(cards: seq<Card>)
    ensures HandScore(cards) == NonAceSum(cards) + AceCount(cards) + (if IsSoft(cards) then 10 else 0)
    ensures ElevensCounted(NonAceSum(cards), AceCount(cards)) <= 1
  {
    AddAcesClosedForm(NonAceSum(cards), AceCount(cards));
  }

  /** The loop-level reading of calculateHandScore: one pass summing non-aces and
      counting aces, then one pass adding 11 or 1 per ace. */
  method CalculateHandScore(cards: seq<Card>) returns (score: int)
    ensures score == HandScore(cards)
    ensures score == NonAceSum(cards) + AceCount(cards) + (if IsSoft(cards) then 10 else 0)
  {
    score := 0;
    var aces := 0;
    var k := 0;
    while k < |cards|
      invariant 0 <= k <= |cards|
      invariant score + NonAceSum(cards[k..]) == NonAceSum(cards)
      invariant aces + AceCount(cards[k..]) == AceCount(cards)
    {
      assert cards[k..][1..] == cards[k + 1..];
      if cards[k].face == Ace {
        aces := aces + 1;
      } else {
        score := score + cards[k].value;
      }
      k := k + 1;
    }
    assert cards[k..] == [];
    var i := 0;
    while i < aces
      invariant 0 <= i <= aces
      invariant AddAces(score, aces - i) == HandScore(cards)
    {
      if score + 11 <= 21 {
        score := score + 11;
      } else {
        score := score + 1;
      }
      i := i + 1;
    }
    HandScoreClosedForm(cards);
  }

  /** A hand whose stored score and bust flag agree with its cards. */
  predicate ScoredHand(h: Hand)
  {
    h.score == HandScore(h.cards) && h.isBusted == (h.score > 21)
  }

  /** hasBlackjack: a natural is a two-card hand scoring 21. */
  predicate HasBlackjack(cards: seq<Card>)
  {
    HandScore(cards) == 21 && |cards| == 2
  }

  /** Hands over standard cards: a non-ace counts between 2 and 10. */
  predicate StandardHand(cards: seq<Card>)
  {
    forall k :: 0 <= k < |cards| ==> StandardCard(cards[k])
  }

  /** The ace count and non-ace sum of a two-card hand, unfolded. */
  lemma PairTotals(a: Card, b: Card)
    ensures NonAceSum([a, b]) == (if a.face == Ace then 0 else a.value) + (if b.face == Ace then 0 else b.value)
    ensures AceCount([a, b]) == (if a.face == Ace then 1 else 0) + (if b.face == Ace then 1 else 0)
  {
    var cards := [a, b];
    assert cards[1..] == [b];
    assert [b][1..] == [];
    assert NonAceSum([b]) == (if b.face == Ace then 0 else b.value);
    assert AceCount([b]) == (if b.face == Ace then 1 else 0);
  }

  /** Two standard cards form a natural exactly when one is an ace and the other a ten-valued card. */
  lemma BlackjackIsAceAndTen(a: Card, b: Card)
    requires StandardCard(a) && StandardCard(b)
    ensures HasBlackjack([a, b]) <==>
      (a.face == Ace && b.face != Ace && b.value == 10) || (b.face == Ace && a.face != Ace && a.value == 10)
  {
    PairTotals(a, b);
    HandScoreClosedForm([a, b]);
  }

  /** Two standard cards never score above 21, so a freshly dealt hand is never busted. */
  lemma TwoCardScoreAtMost21(a: Card, b: Card)
    requires StandardCard(a) && StandardCard(b)
    ensures HandScore([a, b]) <= 21
  {
    PairTotals(a, b);
    HandScoreClosedForm([a, b]);
  }

  /** The greedy rule scores 10, A, A as 22 (a bust), although counting both aces
      as 1 would give 12: once the first ace takes 11, the second cannot undo it. */
  lemma TenAceAceScoresTwentyTwo(s: Suit)
    ensures HandScore([Card(s, 10, Pip(10)), Card(s, 1, Ace), Card(s, 1, Ace)]) == 22
  {
    var cards := [Card(s, 10, Pip(10)), Card(s, 1, Ace), Card(s, 1, Ace)];
    assert cards[1..] == [Card(s, 1, Ace), Card(s, 1, Ace)];
    assert cards[1..][1..] == [Card(s, 1, Ace)];
    assert cards[1..][1..][1..] == [];
    assert NonAceSum(cards[1..][1..]) == 0;
    assert NonAceSum(cards[1..]) == 0;
    assert AceCount(cards[1..][1..]) == 1;
    assert AceCount(cards[1..]) == 2;
    HandScoreClosedForm(cards);
  }

  /** The example hands of the unit tests: [10,5]=15, [K,Q]=20, [A,10]=21, [A,A,5]=17
      (the aces there carry value 11, which the score ignores). */
  lemma ExampleScores()
    ensures HandScore([Card(Hearts, 10, Pip(10)), Card(Clubs, 5, Pip(5))]) == 15
    ensures HandScore([Card(Hearts, 10, King), Card(Clubs, 10, Queen)]) == 20
    ensures HandScore([Card(Hearts, 11, Ace), Card(Clubs, 10, Pip(10))]) == 21
    ensures HandScore([Card(Hearts, 11, Ace), Card(Clubs, 11, Ace), Card(Diamonds, 5, Pip(5))]) == 17
  {
    var h1 := [Card(Hearts, 10, Pip(10)), Card(Clubs, 5, Pip(5))];
    assert h1[1..] == [Card(Clubs, 5, Pip(5))];
    var h2 := [Card(Hearts, 10, King), Card(Clubs, 10, Queen)];
    assert h2[1..] == [Card(Clubs, 10, Queen)];
    var h3 := [Card(Hearts, 11, Ace), Card(Clubs, 10, Pip(10))];
    assert h3[1..] == [Card(Clubs, 10, Pip(10))];
    var h4 := [Card(Hearts, 11, Ace), Card(Clubs, 11, Ace), Card(Diamonds, 5, Pip(5))];
    assert h4[1..] == [Card(Clubs, 11, Ace), Card(Diamonds, 5, Pip(5))];
    assert h4[1..][1..] == [Card(Diamonds, 5, Pip(5))];
    HandScoreClosedForm(h1);
    HandScoreClosedForm(h2);
    HandScoreClosedForm(h3);
    HandScoreClosedForm(h4);
  }

  // ---------------------------------------------------------------------------
  // Dealing
  // ---------------------------------------------------------------------------

  datatype Dealt = Dealt(card: Card, rest: seq<Card>)

  /** dealCard: fails on an empty deck, otherwise hands out the last card and a
      new array holding the others (the caller's deck is a value and stays as it was). */
  function DealCard(deck: seq<Card>): (r: Option<Dealt>)
    ensures r.None? <==> |deck| == 0
    ensures r.Some? ==> r.value.rest + [r.value.card] == deck
  {
    if |deck| == 0 then None
    else Some(Dealt(deck[|deck| - 1], deck[..|deck| - 1]))
  }
}
