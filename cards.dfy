/** Cards, their colors, the deck, and the fixed strength ranking of values
    (simple_input_logic.py, classes Color and Card, and Lobby.generate_new_deck). */
module Cards {
  import opened Base

  /** Color is an IntEnum; its integer value orders the colors for the
      manilla tie-break, weakest first. */
  datatype Color = Diamonds | Spades | Hearts | Clubs

  function ColorValue(c: Color): int
  {
    match c
    case Diamonds => 1
    case Spades => 2
    case Hearts => 3
    case Clubs => 4
  }

  /** A face value accepted by the Card constructor: 1 = As, 11 = Jack, 12 = Queen, 13 = King. */
  type Rank = v: int | 1 <= v <= 13 witness 1

  /** A card; `ownerId` is None until a player draws it. */
  datatype Card = Card(value: Rank, color: Color, ownerId: Option<int>)

  /** The `real_value` the constructor derives from the face value. */
  function Strength(v: Rank): (r: int)
    ensures 1 <= r <= 13
    ensures r == 13 <==> v == 2
  {
    if v > 2 && v <= 10 then v - 2
    else if v == 11 then 10
    else if v == 12 then 9
    else if v == 13 then 11
    else v + 11
  }

  function RealValue(c: Card): int
  {
    Strength(c.value)
  }

  /** The face values from weakest to strongest: 3..10, Q, J, K, As, 2. */
  const Ladder: seq<Rank> := [3, 4, 5, 6, 7, 8, 9, 10, 12, 11, 13, 1, 2]

  /** Strength numbers the ladder 1..13, so it is one-to-one onto 1..13 and
      orders the values as the ladder says. */
  lemma StrengthFollowsLadder()
    ensures forall i :: 0 <= i < 13 ==> Strength(Ladder[i]) == i + 1
    ensures forall v: Rank :: 1 <= Strength(v) <= 13
    ensures forall v: Rank, w: Rank :: Strength(v) == Strength(w) ==> v == w
  {
  }

  datatype NewCardResult = Made(card: Card) | ValueOutOfRange(given: int)

  /** `Card(v, c)`: raises ValueError unless v is in [1;13]; a fresh card has no owner. */
  function NewCard(v: int, c: Color): (r: NewCardResult)
    ensures r.Made? <==> 1 <= v <= 13
    ensures r.Made? ==> r.card.value == v && r.card.color == c && r.card.ownerId == None
    ensures r.Made? ==> 1 <= RealValue(r.card) <= 13
    ensures r.ValueOutOfRange? ==> r.given == v
  {
    if 1 <= v <= 13 then Made(Card(v, c, None)) else ValueOutOfRange(v)
  }

  /** The four cards of one value in the order generate_new_deck appends them. */
  function Quad(v: Rank): seq<Card>
  {
    [Card(v, Hearts, None), Card(v, Spades, None), Card(v, Diamonds, None), Card(v, Clubs, None)]
  }

  function ColorAt(k: int): Color
    requires 0 <= k < 4
  {
    if k == 0 then Hearts else if k == 1 then Spades else if k == 2 then Diamonds else Clubs
  }

  function ColorIndex(c: Color): int
  {
    match c
    case Hearts => 0
    case Spades => 1
    case Diamonds => 2
    case Clubs => 3
  }

  /** The cards of the values 1..v, in construction order. */
  function DeckUpTo(v: int): seq<Card>
    requires 0 <= v <= 13
  {
    if v == 0 then [] else DeckUpTo(v - 1) + Quad(v)
  }

  /** The deck generate_new_deck returns: position i holds value i / 4 + 1 in
      the (i % 4)-th color. */
  function FullDeck(): (d: seq<Card>)
    ensures |d| == 52
  {
    seq(52, i requires 0 <= i < 52 => Card(i / 4 + 1, ColorAt(i % 4), None))
  }

  /** Position i of the partial deck holds value i / 4 + 1 in the (i % 4)-th color. */
  lemma {:induction false} DeckUpToAt(v: int)
    requires 0 <= v <= 13
    ensures |DeckUpTo(v)| == 4 * v
    ensures forall i :: 0 <= i < 4 * v ==> DeckUpTo(v)[i] == Card(i / 4 + 1, ColorAt(i % 4), None)
  {
    if v > 0 {
      DeckUpToAt(v - 1);
      forall i | 4 * (v - 1) <= i < 4 * v
        ensures DeckUpTo(v)[i] == Card(i / 4 + 1, ColorAt(i % 4), None)
      {
        assert i / 4 + 1 == v;
        assert DeckUpTo(v)[i] == Quad(v)[i - 4 * (v - 1)];
      }
    }
  }

  /** The loop of generate_new_deck, run over all thirteen values, builds FullDeck. */
  lemma DeckUpToFull()
    ensures DeckUpTo(13) == FullDeck()
  {
    DeckUpToAt(13);
    assert forall i :: 0 <= i < 52 ==> DeckUpTo(13)[i] == FullDeck()[i];
  }

  /** generate_new_deck yields 52 ownerless cards, one per (value, color). */
  lemma FullDeckOnePerCard()
    ensures |FullDeck()| == 52
    ensures forall i :: 0 <= i < 52 ==> FullDeck()[i].ownerId == None
    ensures forall i, j :: 0 <= i < j < 52 ==> FullDeck()[i] != FullDeck()[j]
    ensures forall v: Rank, c: Color :: Card(v, c, None) in FullDeck()
  {
    var d := FullDeck();
    forall i, j | 0 <= i < j < 52
      ensures d[i] != d[j]
    {
      if i / 4 == j / 4 {
        assert i % 4 != j % 4;
        assert d[i].color != d[j].color;
      } else {
        assert d[i].value != d[j].value;
      }
    }
    forall v: Rank, c: Color
      ensures Card(v, c, None) in d
    {
      var i := 4 * (v - 1) + ColorIndex(c);
      assert i / 4 + 1 == v && i % 4 == ColorIndex(c);
      assert d[i] == Card(v, c, None);
    }
  }

  /** `perm` lists each position of an n-card sequence exactly once. */
  ghost predicate IsPermutation(perm: seq<int>, n: int)
  {
    |perm| == n &&
    (forall i :: 0 <= i < |perm| ==> 0 <= perm[i] < n) &&
    (forall i, j :: 0 <= i < j < |perm| ==> perm[i] != perm[j])
  }

  /** The order random.shuffle leaves the deck in, given as the permutation it applied. */
  function Shuffled(deck: seq<Card>, perm: seq<int>): (r: seq<Card>)
    requires forall i :: 0 <= i < |perm| ==> 0 <= perm[i] < |deck|
    ensures |r| == |perm|
  {
    seq(|perm|, i requires 0 <= i < |perm| => deck[perm[i]])
  }

  /** A shuffled fresh deck still has 52 distinct ownerless cards. */
  lemma ShuffledDeckDistinct(perm: seq<int>)
    requires IsPermutation(perm, 52)
    ensures |FullDeck()| == 52
    ensures |Shuffled(FullDeck(), perm)| == 52
    ensures forall i :: 0 <= i < 52 ==> Shuffled(FullDeck(), perm)[i].ownerId == None
    ensures forall i, j :: 0 <= i < j < 52 ==> Shuffled(FullDeck(), perm)[i] != Shuffled(FullDeck(), perm)[j]
  {
    FullDeckOnePerCard();
    var d := Shuffled(FullDeck(), perm);
    forall i, j | 0 <= i < j < 52
      ensures d[i] != d[j]
    {
      if perm[i] < perm[j] {
        assert FullDeck()[perm[i]] != FullDeck()[perm[j]];
      } else {
        assert FullDeck()[perm[j]] != FullDeck()[perm[i]];
      }
    }
  }
}
