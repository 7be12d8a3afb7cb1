/** Seat arithmetic around a table of n seats: the cyclic scans behind
    set_next_dealer_id, set_next_player_id, rewind_player_id and the
    alive-seat order of close_gameturn, and the number of tricks
    computed by set_current_number_of_turns (simple_input_logic.py). */
module Seats {
  import opened Base

  /** The seat k places after `from`: Python's (from + k) % n for the ranges
      the engine uses (`from` is a seat or the initial dealer id -1). */
  function Cyc(n: int, from: int, k: int): (r: int)
    requires n > 0 && -1 <= from < n && 0 <= k <= n && 0 <= from + k
    ensures 0 <= r < n
    ensures r == (from + k) % n
  {
    if from + k < n then ModBelow(from + k, n); from + k
    else ModOnce(from + k, n); from + k - n
  }

  lemma ModBelow(x: int, n: int)
    requires 0 <= x < n
    ensures x % n == x
  {
  }

  lemma ModOnce(x: int, n: int)
    requires 0 < n <= x < 2 * n
    ensures x % n == x - n
  {
  }

  /** How many places after `from` the seat t lies, counting a full turn as n. */
  function Offset(n: int, from: int, t: int): (k: int)
    requires n > 0 && -1 <= from < n && 0 <= t < n
    ensures 1 <= k <= n && Cyc(n, from, k) == t
  {
    if t > from then t - from else t - from + n
  }

  lemma OffsetOfCyc(n: int, from: int, k: int)
    requires n > 0 && -1 <= from < n && 1 <= k <= n && 0 <= from + k
    ensures Offset(n, from, Cyc(n, from, k)) == k
  {
  }

  /** The least offset in [k, n] whose seat is flagged, or n + 1 when there is none. */
  function NextOffset(flags: seq<bool>, from: int, k: int): (off: int)
    requires |flags| > 0 && -1 <= from < |flags| && 1 <= k <= |flags| + 1
    ensures k <= off <= |flags| + 1
    ensures off <= |flags| ==> flags[Cyc(|flags|, from, off)]
    ensures forall j :: k <= j < off && j <= |flags| ==> !flags[Cyc(|flags|, from, j)]
    decreases |flags| + 1 - k
  {
    if k > |flags| then k
    else if flags[Cyc(|flags|, from, k)] then k
    else NextOffset(flags, from, k + 1)
  }

  /** A flagged seat somewhere makes the scan from `from` stop within one turn. */
  lemma NextOffsetFinds(flags: seq<bool>, from: int)
    requires |flags| > 0 && -1 <= from < |flags|
    requires true in flags
    ensures NextOffset(flags, from, 1) <= |flags|
  {
    var t :| 0 <= t < |flags| && flags[t];
    var k := Offset(|flags|, from, t);
    assert flags[Cyc(|flags|, from, k)];
  }

  /** The first flagged seat strictly after `from` in cyclic order (`from`
      itself only after a full turn). */
  function NextSeat(flags: seq<bool>, from: int): (d: int)
    requires |flags| > 0 && -1 <= from < |flags|
    requires true in flags
    ensures 0 <= d < |flags| && flags[d]
    ensures forall j :: 1 <= j < Offset(|flags|, from, d) ==> !flags[Cyc(|flags|, from, j)]
  {
    NextOffsetFinds(flags, from);
    var off := NextOffset(flags, from, 1);
    OffsetOfCyc(|flags|, from, off);
    Cyc(|flags|, from, off)
  }

  /** A scan that finds its first flagged seat k places after `from` has found NextSeat. */
  lemma NextSeatAt(flags: seq<bool>, from: int, k: int)
    requires |flags| > 0 && -1 <= from < |flags| && 1 <= k <= |flags| && 0 <= from + k
    requires flags[Cyc(|flags|, from, k)]
    requires forall j :: 1 <= j < k ==> !flags[Cyc(|flags|, from, j)]
    ensures true in flags && NextSeat(flags, from) == Cyc(|flags|, from, k)
  {
    assert flags[Cyc(|flags|, from, k)];
  }

  /** Position of seat x in the turn that starts at `start` (0 for `start` itself). */
  function Pos(n: int, start: int, x: int): (k: int)
    requires n > 0 && 0 <= start < n && 0 <= x < n
    ensures 0 <= k < n && Cyc(n, start, k) == x
  {
    if x >= start then x - start else x - start + n
  }

  /** The flagged seats among the first k of the turn starting at `start`, in
      that order: the loop that builds alive_player_ids in close_gameturn. */
  function AliveOrder(flags: seq<bool>, start: int, k: int): (r: seq<int>)
    requires |flags| > 0 && 0 <= start < |flags| && 0 <= k <= |flags|
    ensures forall t :: 0 <= t < |r| ==> 0 <= r[t] < |flags| && flags[r[t]] && Pos(|flags|, start, r[t]) < k
    ensures forall t, u :: 0 <= t < u < |r| ==> Pos(|flags|, start, r[t]) < Pos(|flags|, start, r[u])
    ensures forall j :: 0 <= j < k && flags[Cyc(|flags|, start, j)] ==> Cyc(|flags|, start, j) in r
  {
    if k == 0 then []
    else
      var seat := Cyc(|flags|, start, k - 1);
      assert Pos(|flags|, start, seat) == k - 1;
      AliveOrder(flags, start, k - 1) + (if flags[seat] then [seat] else [])
  }

  /** A seat appears at most once in the alive order. */
  lemma AliveOrderDistinct(flags: seq<bool>, start: int, k: int)
    requires |flags| > 0 && 0 <= start < |flags| && 0 <= k <= |flags|
    ensures forall t, u :: 0 <= t < u < |AliveOrder(flags, start, k)| ==>
      AliveOrder(flags, start, k)[t] != AliveOrder(flags, start, k)[u]
  {
  }

  /** Python's `(seat + 1) % n` walks the table one seat further. */
  lemma CycStep(n: int, from: int, k: int)
    requires n > 0 && -1 <= from < n && 0 <= k < n && 0 <= from + k
    ensures (Cyc(n, from, k) + 1) % n == Cyc(n, from, k + 1)
  {
    var c := Cyc(n, from, k);
    if c + 1 == n {
      ModOnce(c + 1, n);
    } else {
      ModBelow(c + 1, n);
    }
  }

  /** Number of flagged seats: count_alive_players and count_having_cards_players. */
  function CountTrue(flags: seq<bool>): (c: nat)
    ensures c <= |flags|
    ensures c > 0 <==> true in flags
  {
    if flags == [] then 0 else (if flags[0] then 1 else 0) + CountTrue(flags[1..])
  }

  /** Counting seat by seat from the front, as the Python loops do. */
  lemma {:induction false} CountTrueSnoc(flags: seq<bool>, b: bool)
    ensures CountTrue(flags + [b]) == CountTrue(flags) + (if b then 1 else 0)
  {
    if flags != [] {
      assert (flags + [b])[1..] == flags[1..] + [b];
      CountTrueSnoc(flags[1..], b);
    }
  }

  /** With at most one seat flagged, the count is at most one. */
  lemma {:induction false} CountTrueAtMostOne(flags: seq<bool>, c: int)
    requires forall j :: 0 <= j < |flags| && j != c ==> !flags[j]
    ensures CountTrue(flags) <= 1
  {
    if flags != [] {
      if c == 0 {
        assert forall j :: 0 <= j < |flags[1..]| ==> !flags[1..][j] by {
          forall j | 0 <= j < |flags[1..]|
            ensures !flags[1..][j]
          {
            assert flags[1..][j] == flags[j + 1];
          }
        }
        assert CountTrue(flags[1..]) == 0;
      } else {
        assert !flags[0];
        assert forall j :: 0 <= j < |flags[1..]| && j != c - 1 ==> flags[1..][j] == flags[j + 1];
        CountTrueAtMostOne(flags[1..], c - 1);
      }
    }
  }

  /** set_current_number_of_turns: the largest life count when two players
      share it, otherwise the largest after removing the single leader. */
  function TurnCount(lives: seq<int>): (t: int)
    requires |lives| >= 2
    ensures t in lives && t <= Max(lives)
  {
    var m := Max(lives);
    if Count(lives, m) > 1 then m
    else
      var rest := RemoveFirst(lives, m);
      var t := Max(rest);
      assert t in multiset(rest);
      t
  }

  /** The trick count is the second-largest entry: it occurs among the lives,
      at least two seats have that many or more, at most one has more. */
  lemma TurnCountIsSecondLargest(lives: seq<int>)
    requires |lives| >= 2
    ensures TurnCount(lives) in lives
    ensures TurnCount(lives) <= Max(lives)
    ensures AtLeast(lives, TurnCount(lives)) >= 2
    ensures Above(lives, TurnCount(lives)) <= 1
  {
    var m := Max(lives);
    if Count(lives, m) > 1 {
      CountBelowAtLeast(lives, m);
      NoneAbove(lives, m);
    } else {
      var rest := RemoveFirst(lives, m);
      var t := Max(rest);
      assert multiset(rest)[t] > 0;
      assert t in lives;
      RemoveFirstCounts(lives, m, t);
      CountBelowAtLeast(rest, t);
      NoneAbove(rest, t);
    }
  }

  lemma {:induction false} AtLeastAntitone(s: seq<int>, a: int, b: int)
    requires a <= b
    ensures AtLeast(s, b) <= AtLeast(s, a)
    ensures Above(s, a) >= AtLeast(s, b) || a == b
  {
    if s != [] {
      AtLeastAntitone(s[1..], a, b);
    }
  }

  /** With two or more seats holding a life, every round has at least one trick. */
  lemma TurnCountPositive(lives: seq<int>)
    requires |lives| >= 2
    requires AtLeast(lives, 1) >= 2
    ensures TurnCount(lives) >= 1
  {
    TurnCountIsSecondLargest(lives);
    var t := TurnCount(lives);
    if t < 1 {
      AtLeastAntitone(lives, t, 1);
    }
  }
}
