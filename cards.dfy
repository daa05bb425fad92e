/** Cards and how a card's value is displayed (app.py, class Card and the
    deck construction of class Deck). */
module Cards {

  datatype Suit = Spades | Clubs | Hearts | Diamonds

  /** A card: a suit and a value, 2..14 in a real deck (11..14 are J, Q, K, A).
      Cards are never changed after creation, so they are values here. */
  datatype Card = Card(suit: Suit, value: int)

  /** Suits in the order the deck is built. */
  function SuitAt(k: nat): Suit
    requires k < 4
  {
    [Spades, Clubs, Hearts, Diamonds][k]
  }

  function SuitIndex(s: Suit): (k: nat)
    ensures k < 4 && SuitAt(k) == s
  {
    match s
    case Spades => 0
    case Clubs => 1
    case Hearts => 2
    case Diamonds => 3
  }

  /** The deck before shuffling: every suit in turn, values 2..14 within it. */
  function FullDeck(): seq<Card>
  {
    seq(52, i requires 0 <= i < 52 => Card(SuitAt(i / 13), 2 + i % 13))
  }

  /** The unshuffled deck holds each suit-value pair exactly once and no other card. */
  lemma FullDeckIsStandard()
    ensures |FullDeck()| == 52
    ensures forall s: Suit, v: int :: 2 <= v <= 14 ==> Card(s, v) in FullDeck()
    ensures forall c :: c in FullDeck() ==> 2 <= c.value <= 14
    ensures forall i, j :: 0 <= i < j < 52 ==> FullDeck()[i] != FullDeck()[j]
  {
    var deck := FullDeck();
    forall s: Suit, v: int | 2 <= v <= 14
      ensures Card(s, v) in deck
    {
      var i := SuitIndex(s) * 13 + (v - 2);
      assert i / 13 == SuitIndex(s) && i % 13 == v - 2;
      assert deck[i] == Card(s, v);
    }
    forall i, j | 0 <= i < j < 52
      ensures deck[i] != deck[j]
    {
      if i / 13 == j / 13 {
        assert i % 13 != j % 13;
      } else {
        assert SuitIndex(SuitAt(i / 13)) == i / 13;
        assert SuitIndex(SuitAt(j / 13)) == j / 13;
      }
    }
  }

  function DigitChar(d: nat): char
    requires d < 10
  {
    (48 + d) as char
  }

  /** `str(n)` for a non-negative integer. */
  function DigitsOf(n: nat): string
  {
    if n < 10 then [DigitChar(n)] else DigitsOf(n / 10) + [DigitChar(n % 10)]
  }

  /** `str(v)` for any integer. */
  function Decimal(v: int): string
  {
    if v < 0 then "-" + DigitsOf(-v) else DigitsOf(v)
  }

  /** The value part of a card's display: J, Q, K, A for 11..14, the number
      otherwise (app.py:9-17). */
  function ValueLabel(v: int): string
  {
    if v == 11 then "J"
    else if v == 12 then "Q"
    else if v == 13 then "K"
    else if v == 14 then "A"
    else Decimal(v)
  }
}
