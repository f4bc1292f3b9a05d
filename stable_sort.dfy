/**
 * The two `list.sort(key=pnl)` calls of the analysis: gainers in descending
 * pnl order (`reverse=True`) and losers in ascending pnl order. Both sorts are
 * stable: entries with equal pnl keep the order in which they were appended.
 *
 * `InsertionSort` is the specification; `SortInPlace` sorts an array in place
 * and is proved to compute it. `StableSortIsUnique` shows that every sorted,
 * tie-preserving rearrangement equals `InsertionSort`, so any stable sort
 * gives the same list.
 */
module StableSort {
  import opened Holdings

  datatype Direction = Ascending | Descending

  /** The sort key; a descending sort is an ascending sort by the negated pnl. */
  function Rank(x: HoldingInfo, d: Direction): real {
    if d == Descending then -x.pnl else x.pnl
  }

  predicate Sorted(s: seq<HoldingInfo>, d: Direction) {
    forall i, j :: 0 <= i < j < |s| ==> Rank(s[i], d) <= Rank(s[j], d)
  }

  /** The entries of `s` whose pnl is `p`, in their order in `s`. */
  function WithPnl(s: seq<HoldingInfo>, p: real): seq<HoldingInfo> {
    if s == [] then []
    else WithPnl(s[..|s| - 1], p) + (if s[|s| - 1].pnl == p then [s[|s| - 1]] else [])
  }

  /** `t` keeps the ties of `s`: for each pnl value, its entries come in the same order. */
  ghost predicate KeepsTies(s: seq<HoldingInfo>, t: seq<HoldingInfo>) {
    forall p :: WithPnl(t, p) == WithPnl(s, p)
  }

  /** Where `x` goes in `s`: after the last entry whose rank is at most that of `x`. */
  function InsertPos(s: seq<HoldingInfo>, x: HoldingInfo, d: Direction): (j: nat)
    ensures j <= |s|
  {
    if s == [] || Rank(s[|s| - 1], d) <= Rank(x, d) then |s| else InsertPos(s[..|s| - 1], x, d)
  }

  function Insert(s: seq<HoldingInfo>, x: HoldingInfo, d: Direction): seq<HoldingInfo> {
    var j := InsertPos(s, x, d);
    s[..j] + [x] + s[j..]
  }

  function InsertionSort(s: seq<HoldingInfo>, d: Direction): seq<HoldingInfo> {
    if s == [] then [] else Insert(InsertionSort(s[..|s| - 1], d), s[|s| - 1], d)
  }

  // ----- Filtering by pnl -----

  lemma {:induction false} WithPnlAppend(s: seq<HoldingInfo>, t: seq<HoldingInfo>, p: real)
    ensures WithPnl(s + t, p) == WithPnl(s, p) + WithPnl(t, p)
    decreases |t|
  {
    if t == [] {
      assert s + t == s;
    } else {
      var t' := t[..|t| - 1];
      assert (s + t)[..|s + t| - 1] == s + t';
      WithPnlAppend(s, t', p);
    }
  }

  lemma {:induction false} WithPnlMembers(s: seq<HoldingInfo>, p: real)
    ensures forall y :: y in WithPnl(s, p) <==> y in s && y.pnl == p
  {
    if s != [] {
      WithPnlMembers(s[..|s| - 1], p);
      assert s == s[..|s| - 1] + [s[|s| - 1]];
    }
  }

  // ----- Insert -----

  /** `InsertPos` is the unique cut: everything after it outranks `x`, the entry before it does not. */
  lemma {:induction false} InsertPosCut(s: seq<HoldingInfo>, x: HoldingInfo, d: Direction)
    ensures var j := InsertPos(s, x, d);
      (forall k :: j <= k < |s| ==> Rank(s[k], d) > Rank(x, d)) &&
      (j > 0 ==> Rank(s[j - 1], d) <= Rank(x, d))
  {
    if s != [] && Rank(s[|s| - 1], d) > Rank(x, d) {
      InsertPosCut(s[..|s| - 1], x, d);
    }
  }

  lemma {:induction false} InsertPosUnique(s: seq<HoldingInfo>, x: HoldingInfo, d: Direction, j: nat)
    requires j <= |s|
    requires forall k :: j <= k < |s| ==> Rank(s[k], d) > Rank(x, d)
    requires j > 0 ==> Rank(s[j - 1], d) <= Rank(x, d)
    ensures InsertPos(s, x, d) == j
  {
    if j < |s| {
      InsertPosUnique(s[..|s| - 1], x, d, j);
    }
  }

  lemma {:induction false} InsertSorted(s: seq<HoldingInfo>, x: HoldingInfo, d: Direction)
    requires Sorted(s, d)
    ensures Sorted(Insert(s, x, d), d)
  {
    InsertPosCut(s, x, d);
  }

  lemma {:induction false} WithPnlNone(s: seq<HoldingInfo>, p: real)
    requires forall k :: 0 <= k < |s| ==> s[k].pnl != p
    ensures WithPnl(s, p) == []
  {
    if s != [] {
      WithPnlNone(s[..|s| - 1], p);
    }
  }

  lemma {:induction false} InsertKeepsTies(s: seq<HoldingInfo>, x: HoldingInfo, d: Direction, p: real)
    ensures WithPnl(Insert(s, x, d), p) == WithPnl(s + [x], p)
  {
    var j := InsertPos(s, x, d);
    var front, back := s[..j], s[j..];
    assert Insert(s, x, d) == (front + [x]) + back;
    assert s + [x] == front + (back + [x]);
    WithPnlAppend(front + [x], back, p);
    WithPnlAppend(front, [x], p);
    WithPnlAppend(front, back + [x], p);
    WithPnlAppend(back, [x], p);
    if x.pnl == p {
      InsertPosCut(s, x, d);
      WithPnlNone(back, p);
    } else {
      assert WithPnl([x], p) == [];
    }
  }

  // ----- InsertionSort -----

  lemma {:induction false} InsertionSortSorted(s: seq<HoldingInfo>, d: Direction)
    ensures Sorted(InsertionSort(s, d), d)
  {
    if s != [] {
      InsertionSortSorted(s[..|s| - 1], d);
      InsertSorted(InsertionSort(s[..|s| - 1], d), s[|s| - 1], d);
    }
  }

  lemma {:induction false} InsertionSortPermutes(s: seq<HoldingInfo>, d: Direction)
    ensures |InsertionSort(s, d)| == |s|
    ensures multiset(InsertionSort(s, d)) == multiset(s)
  {
    if s != [] {
      var init := s[..|s| - 1];
      InsertionSortPermutes(init, d);
      var t := InsertionSort(init, d);
      var j := InsertPos(t, s[|s| - 1], d);
      assert t == t[..j] + t[j..];
      assert s == init + [s[|s| - 1]];
    }
  }

  lemma {:induction false} InsertionSortKeepsTies(s: seq<HoldingInfo>, d: Direction)
    ensures KeepsTies(s, InsertionSort(s, d))
  {
    if s != [] {
      var init, x := s[..|s| - 1], s[|s| - 1];
      InsertionSortKeepsTies(init, d);
      var t := InsertionSort(init, d);
      forall p ensures WithPnl(InsertionSort(s, d), p) == WithPnl(s, p) {
        InsertKeepsTies(t, x, d, p);
        WithPnlAppend(t, [x], p);
        WithPnlAppend(init, [x], p);
        assert s == init + [x];
      }
    }
  }

  /** Any sorted rearrangement that keeps ties is the insertion sort: a stable sort is unique. */
  lemma {:induction false} StableSortIsUnique(s: seq<HoldingInfo>, t: seq<HoldingInfo>, d: Direction)
    requires Sorted(t, d) && KeepsTies(s, t)
    ensures t == InsertionSort(s, d)
  {
    InsertionSortSorted(s, d);
    InsertionSortKeepsTies(s, d);
    SortedTiesDetermine(t, InsertionSort(s, d), d);
  }

  lemma {:induction false} SortedTiesDetermine(t1: seq<HoldingInfo>, t2: seq<HoldingInfo>, d: Direction)
    requires Sorted(t1, d) && Sorted(t2, d)
    requires forall p :: WithPnl(t1, p) == WithPnl(t2, p)
    ensures t1 == t2
    decreases |t1|
  {
    if t1 == [] || t2 == [] {
      NonEmptyHasTie(t1);
      NonEmptyHasTie(t2);
    } else {
      var x1, x2 := t1[|t1| - 1], t2[|t2| - 1];
      LastOutranks(t1, x2, d);
      LastOutranks(t2, x1, d);
      var q := x1.pnl;
      assert x2.pnl == q;
      var r1, r2 := t1[..|t1| - 1], t2[..|t2| - 1];
      forall p ensures WithPnl(r1, p) == WithPnl(r2, p) {
        var w1, w2 := WithPnl(r1, p), WithPnl(r2, p);
        assert WithPnl(t1, p) == w1 + (if q == p then [x1] else []);
        assert WithPnl(t2, p) == w2 + (if q == p then [x2] else []);
        assert w1 == WithPnl(t1, p)[..|w1|];
      }
      SortedPrefix(t1, d);
      SortedPrefix(t2, d);
      SortedTiesDetermine(r1, r2, d);
      var w := WithPnl(t1, q);
      assert w == WithPnl(r1, q) + [x1] && w == WithPnl(r2, q) + [x2];
      assert x1 == w[|w| - 1] == x2;
      assert t1 == r1 + [x1] && t2 == r2 + [x2];
    }
  }

  /** In a sorted list every entry whose pnl occurs in it is outranked by the last entry. */
  lemma {:induction false} LastOutranks(t: seq<HoldingInfo>, y: HoldingInfo, d: Direction)
    requires Sorted(t, d) && t != []
    requires y in WithPnl(t, y.pnl)
    ensures Rank(y, d) <= Rank(t[|t| - 1], d)
  {
    WithPnlMembers(t, y.pnl);
    var i :| 0 <= i < |t| && t[i] == y;
    if i < |t| - 1 {
      assert Rank(t[i], d) <= Rank(t[|t| - 1], d);
    }
  }

  lemma {:induction false} SortedPrefix(t: seq<HoldingInfo>, d: Direction)
    requires Sorted(t, d) && t != []
    ensures Sorted(t[..|t| - 1], d)
  {
  }

  /** A list with no entry for any pnl value is empty. */
  lemma {:induction false} NonEmptyHasTie(s: seq<HoldingInfo>)
    ensures s != [] ==> WithPnl(s, s[|s| - 1].pnl) != []
  {
  }

  // ----- The in-place sort -----

  /** Sorting one more element of `s` inserts it into the sorted prefix. */
  lemma {:induction false} InsertionSortStep(s: seq<HoldingInfo>, i: nat, d: Direction)
    requires i < |s|
    ensures InsertionSort(s[..i + 1], d) == Insert(InsertionSort(s[..i], d), s[i], d)
  {
    assert s[..i + 1][..i] == s[..i];
  }

  /** Moves `a[i]` into its place among `a[..i]`, shifting the entries that outrank it right by one. */
  method InsertAt(a: array<HoldingInfo>, i: nat, d: Direction)
    requires i < a.Length
    modifies a
    ensures a[..i + 1] == Insert(old(a[..i]), old(a[i]), d)
    ensures a[i + 1..] == old(a[i + 1..])
  {
    ghost var done := a[..i];
    var x := a[i];
    var j := i;
    while j > 0 && Rank(a[j - 1], d) > Rank(x, d)
      invariant 0 <= j <= i
      invariant forall k :: 0 <= k < j ==> a[k] == done[k]
      invariant forall k :: j < k <= i ==> a[k] == done[k - 1]
      invariant forall k :: j <= k < i ==> Rank(done[k], d) > Rank(x, d)
      invariant a[i + 1..] == old(a[i + 1..])
    {
      a[j] := a[j - 1];
      j := j - 1;
    }
    a[j] := x;
    InsertPosUnique(done, x, d, j);
    assert a[..i + 1] == done[..j] + [x] + done[j..];
  }

  /** Stable insertion sort of `a` by pnl, in place. */
  method SortInPlace(a: array<HoldingInfo>, d: Direction)
    modifies a
    ensures a[..] == InsertionSort(old(a[..]), d)
  {
    ghost var original := a[..];
    var i := 0;
    while i < a.Length
      invariant 0 <= i <= a.Length
      invariant a[..i] == InsertionSort(original[..i], d)
      invariant a[i..] == original[i..]
    {
      assert a[i] == original[i];
      InsertAt(a, i, d);
      InsertionSortStep(original, i, d);
      assert a[i + 1..] == original[i + 1..];
      i := i + 1;
    }
    assert original[..a.Length] == original;
  }

  /** The sorted copy of `s` that `list.sort(key=pnl, reverse=(d == Descending))` leaves behind. */
  method SortByPnl(s: seq<HoldingInfo>, d: Direction) returns (r: seq<HoldingInfo>)
    ensures Sorted(r, d)
    ensures multiset(r) == multiset(s)
    ensures KeepsTies(s, r)
    ensures r == InsertionSort(s, d)
  {
    var a := new HoldingInfo[|s|](k requires 0 <= k < |s| => s[k]);
    assert a[..] == s;
    SortInPlace(a, d);
    r := a[..];
    InsertionSortSorted(s, d);
    InsertionSortPermutes(s, d);
    InsertionSortKeepsTies(s, d);
  }
}
