/** Trick resolution (Lobby.update_current_wins, simple_input_logic.py): which
    played card takes the trick, given this round's manilla. */
module Tricks {
  import opened Base
  import opened Cards

  /** The manilla is the strength right above the beforemanilla's, 2 wrapping to 3. */
  function Manilla(beforeStrength: int): (m: int)
    ensures 1 <= beforeStrength <= 13 ==> 1 <= m <= 13 && m != beforeStrength
  {
    if beforeStrength == 13 then 1 else beforeStrength + 1
  }

  /** The manilla is the cyclic successor of the beforemanilla on the strength scale 1..13. */
  lemma ManillaIsSuccessor(beforeStrength: int)
    requires 1 <= beforeStrength <= 13
    ensures 1 <= Manilla(beforeStrength) <= 13
    ensures Manilla(beforeStrength) == beforeStrength % 13 + 1
  {
  }

  /** `[c.real_value for c in pile]` */
  function Strengths(pile: seq<Card>): (vals: seq<int>)
    ensures |vals| == |pile|
    ensures forall i :: 0 <= i < |pile| ==> vals[i] == RealValue(pile[i])
  {
    seq(|pile|, i requires 0 <= i < |pile| => RealValue(pile[i]))
  }

  /** Among pile[..k], the manilla of the highest color (the first one on a
      tie), or None when pile[..k] holds no manilla. */
  function BestManilla(pile: seq<Card>, m: int, k: nat): (r: Option<nat>)
    requires k <= |pile|
    ensures r.None? <==> forall j :: 0 <= j < k ==> RealValue(pile[j]) != m
    ensures r.Some? ==> r.value < k && RealValue(pile[r.value]) == m
    ensures r.Some? ==> forall j :: 0 <= j < k && RealValue(pile[j]) == m ==>
      ColorValue(pile[j].color) <= ColorValue(pile[r.value].color)
  {
    if k == 0 then None
    else
      var b := BestManilla(pile, m, k - 1);
      if RealValue(pile[k - 1]) == m && (b.None? || ColorValue(pile[k - 1].color) > ColorValue(pile[b.value].color))
      then Some(k - 1)
      else b
  }

  /** Among vals[..k], the position of the highest value occurring exactly once
      in all of vals, or None when every such value is repeated. */
  function HighestUnique(vals: seq<int>, k: nat): (r: Option<nat>)
    requires k <= |vals|
    ensures r.None? <==> forall j :: 0 <= j < k ==> Count(vals, vals[j]) != 1
    ensures r.Some? ==> r.value < k && Count(vals, vals[r.value]) == 1
    ensures r.Some? ==> forall j :: 0 <= j < k && Count(vals, vals[j]) == 1 ==> vals[j] <= vals[r.value]
  {
    if k == 0 then None
    else
      var b := HighestUnique(vals, k - 1);
      if Count(vals, vals[k - 1]) == 1 && (b.None? || vals[k - 1] > vals[b.value])
      then Some(k - 1)
      else b
  }

  /** The outcome of a trick: the position in the pile of the winning card, or
      a full cancellation. */
  datatype TrickResult = Winner(card: nat) | Cancelled

  /** update_current_wins with the highest-color rule for several manillas. */
  function Resolve(pile: seq<Card>, beforeStrength: int): (r: TrickResult)
    ensures r.Winner? ==> r.card < |pile|
    ensures Manilla(beforeStrength) in Strengths(pile) ==>
      r.Winner? && RealValue(pile[r.card]) == Manilla(beforeStrength) &&
      forall j :: 0 <= j < |pile| && RealValue(pile[j]) == Manilla(beforeStrength) ==>
        ColorValue(pile[j].color) <= ColorValue(pile[r.card].color)
    ensures Manilla(beforeStrength) !in Strengths(pile) ==>
      (r.Cancelled? <==> forall j :: 0 <= j < |pile| ==> Count(Strengths(pile), RealValue(pile[j])) >= 2)
    ensures Manilla(beforeStrength) !in Strengths(pile) && r.Winner? ==>
      Count(Strengths(pile), RealValue(pile[r.card])) == 1 &&
      forall j :: 0 <= j < |pile| && Count(Strengths(pile), RealValue(pile[j])) == 1 ==>
        RealValue(pile[j]) <= RealValue(pile[r.card])
  {
    var m := Manilla(beforeStrength);
    var vals := Strengths(pile);
    if Count(vals, m) > 1 then
      Winner(BestManilla(pile, m, |pile|).value)
    else if Count(vals, m) == 1 then
      var i := IndexOf(vals, m);
      assert BestManilla(pile, m, |pile|) == Some(i) by {
        forall j | 0 <= j < |pile| && RealValue(pile[j]) == m
          ensures j == i
        {
          CountOnceUnique(vals, m, i, j);
        }
        SingleManilla(pile, m, |pile|, i);
      }
      Winner(i)
    else
      match HighestUnique(vals, |vals|)
      case None => Cancelled
      case Some(h) => Winner(IndexOf(vals, vals[h]))
  }

  /** When exactly one card of the pile has strength m it is the best manilla. */
  lemma {:induction false} SingleManilla(pile: seq<Card>, m: int, k: nat, i: nat)
    requires k <= |pile| && i < k
    requires RealValue(pile[i]) == m
    requires forall j :: 0 <= j < k && j != i ==> RealValue(pile[j]) != m
    ensures BestManilla(pile, m, k) == Some(i)
  {
    if k - 1 != i {
      SingleManilla(pile, m, k - 1, i);
    } else {
      assert BestManilla(pile, m, k - 1) == None;
    }
  }

  /** The state of the loop at simple_input_logic.py:333-336 as written:
      `winner_owner` holds an owner id but is used as a position in the pile. */
  datatype Scan = Scanning(winnerOwner: Option<int>) | RaisedIndexError

  function AsWrittenManillaScan(pile: seq<Card>, m: int, k: nat): (r: Scan)
    requires k <= |pile|
    ensures (forall j :: 0 <= j < k ==> pile[j].ownerId.Some?) ==>
      (r == Scanning(None) <==> forall j :: 0 <= j < k ==> RealValue(pile[j]) != m)
  {
    if k == 0 then Scanning(None)
    else
      match AsWrittenManillaScan(pile, m, k - 1)
      case RaisedIndexError => RaisedIndexError
      case Scanning(w) =>
        var c := pile[k - 1];
        if RealValue(c) != m then Scanning(w)
        else if w.None? then Scanning(c.ownerId)
        else if !(-|pile| <= w.value < |pile|) then RaisedIndexError
        else
          var j := if w.value >= 0 then w.value else |pile| + w.value;
          if ColorValue(c.color) > ColorValue(pile[j].color) then Scanning(c.ownerId) else Scanning(w)
  }

  /** Seat 1 leads a Diamonds manilla (the 9, above a beforemanilla 8), seat 2
      follows with the Spades manilla, seat 0 throws a 3. */
  const MisawardedPile: seq<Card> :=
    [Card(9, Diamonds, Some(1)), Card(9, Spades, Some(2)), Card(3, Clubs, Some(0))]

  /** As written the Spades manilla is compared with pile[1], i.e. with itself,
      so seat 1 keeps the trick; highest color should give it to seat 2. */
  lemma AsWrittenMisawardsManilla()
    ensures Strength(8) == 6 && Manilla(6) == Strength(9)
    ensures AsWrittenManillaScan(MisawardedPile, Manilla(6), 3) == Scanning(Some(1))
    ensures Resolve(MisawardedPile, 6) == Winner(1) && MisawardedPile[1].ownerId == Some(2)
  {
    assert Strengths(MisawardedPile) == [7, 7, 1];
    assert Count(Strengths(MisawardedPile), 7) == 2;
  }

  /** Two manillas where the first comes from seat 3 (say four seats, dealer 3,
      seats 1 and 2 dead): `self.current_played_cards[3]` is out of range. */
  lemma AsWrittenRaisesIndexError()
    ensures AsWrittenManillaScan([Card(9, Diamonds, Some(3)), Card(9, Spades, Some(0))], Manilla(6), 2) == RaisedIndexError
    ensures Resolve([Card(9, Diamonds, Some(3)), Card(9, Spades, Some(0))], 6) == Winner(1)
  {
    var pile := [Card(9, Diamonds, Some(3)), Card(9, Spades, Some(0))];
    assert Strengths(pile) == [7, 7];
    assert Count(Strengths(pile), 7) == 2;
  }
}
