/** Small value types and list helpers shared by the model (Python's `None`,
    `list.count`, `max`, `sum`, `list.remove`, `list.index`). */
module Base {

  datatype Option<T> = None | Some(value: T)

  /** `s.count(x)` */
  function Count(s: seq<int>, x: int): (c: nat)
    ensures c <= |s|
    ensures c > 0 <==> x in s
  {
    if s == [] then 0 else (if s[0] == x then 1 else 0) + Count(s[1..], x)
  }

  /** Number of entries of `s` that are at least `t`. */
  function AtLeast(s: seq<int>, t: int): nat
  {
    if s == [] then 0 else (if s[0] >= t then 1 else 0) + AtLeast(s[1..], t)
  }

  /** Number of entries of `s` that are strictly above `t`. */
  function Above(s: seq<int>, t: int): nat
  {
    if s == [] then 0 else (if s[0] > t then 1 else 0) + Above(s[1..], t)
  }

  /** `max(s)`, which Python refuses on an empty list. */
  function Max(s: seq<int>): (m: int)
    requires |s| > 0
    ensures m in s
    ensures forall i :: 0 <= i < |s| ==> s[i] <= m
  {
    if |s| == 1 then s[0]
    else
      var t := Max(s[1..]);
      assert forall i :: 1 <= i < |s| ==> s[i] == s[1..][i - 1];
      if s[0] >= t then s[0] else t
  }

  /** `sum(s)` */
  function Sum(s: seq<int>): (r: int)
    ensures (forall i :: 0 <= i < |s| ==> s[i] >= 0) ==> r >= 0
  {
    if s == [] then 0 else s[0] + Sum(s[1..])
  }

  /** Adding one more entry at the back adds it to the sum. */
  lemma {:induction false} SumSnoc(s: seq<int>, x: int)
    ensures Sum(s + [x]) == Sum(s) + x
  {
    if s != [] {
      assert (s + [x])[1..] == s[1..] + [x];
      SumSnoc(s[1..], x);
    }
  }

  /** Replacing one entry changes the sum by the difference. */
  lemma {:induction false} SumUpdate(s: seq<int>, i: int, v: int)
    requires 0 <= i < |s|
    ensures Sum(s[i := v]) == Sum(s) - s[i] + v
  {
    if i == 0 {
      assert s[i := v][1..] == s[1..];
    } else {
      assert s[i := v][1..] == s[1..][i - 1 := v];
      SumUpdate(s[1..], i - 1, v);
    }
  }

  /** `s.index(x)`: the first position holding `x`. */
  function IndexOf(s: seq<int>, x: int): (i: nat)
    requires x in s
    ensures i < |s| && s[i] == x
    ensures forall j :: 0 <= j < i ==> s[j] != x
  {
    if s[0] == x then 0 else 1 + IndexOf(s[1..], x)
  }

  /** `s.remove(x)`: drop the first occurrence of `x`. */
  function RemoveFirst(s: seq<int>, x: int): (r: seq<int>)
    requires x in s
    ensures |r| == |s| - 1
    ensures multiset(r) == multiset(s) - multiset{x}
  {
    assert s == [s[0]] + s[1..];
    if s[0] == x then s[1..]
    else
      [s[0]] + RemoveFirst(s[1..], x)
  }

  /** Removing one `x` takes exactly one entry out of each count that `x` is in. */
  lemma {:induction false} RemoveFirstCounts(s: seq<int>, x: int, t: int)
    requires x in s
    ensures AtLeast(s, t) == AtLeast(RemoveFirst(s, x), t) + (if x >= t then 1 else 0)
    ensures Above(s, t) == Above(RemoveFirst(s, x), t) + (if x > t then 1 else 0)
  {
    if s[0] != x {
      RemoveFirstCounts(s[1..], x, t);
      var r := RemoveFirst(s[1..], x);
      assert RemoveFirst(s, x) == [s[0]] + r;
      assert ([s[0]] + r)[1..] == r;
    }
  }

  /** Every entry of `s` is at most `m`: nothing is above `m`. */
  lemma {:induction false} NoneAbove(s: seq<int>, m: int)
    requires forall i :: 0 <= i < |s| ==> s[i] <= m
    ensures Above(s, m) == 0
  {
    if s != [] {
      NoneAbove(s[1..], m);
    }
  }

  /** `x` counted among the entries at least `x`. */
  lemma {:induction false} CountBelowAtLeast(s: seq<int>, x: int)
    ensures Count(s, x) <= AtLeast(s, x)
  {
    if s != [] {
      CountBelowAtLeast(s[1..], x);
    }
  }

  /** A value counted once sits at a single position. */
  lemma {:induction false} CountOnceUnique(s: seq<int>, x: int, i: int, j: int)
    requires 0 <= i < |s| && 0 <= j < |s| && s[i] == x && s[j] == x
    requires Count(s, x) <= 1
    ensures i == j
  {
    if i != 0 && j != 0 {
      CountOnceUnique(s[1..], x, i - 1, j - 1);
    }
  }
}
