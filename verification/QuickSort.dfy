/** The in-place quicksort of time_window.go. */
module QuickSort {

  predicate Sorted(s: seq<real>) {
    forall i, j :: 0 <= i <= j < |s| ==> s[i] <= s[j]
  }

  /** The array was only rearranged, and only inside [low, high]. */
  twostate predicate Rearranged(a: array<real>, low: int, high: int)
    reads a
  {
    && multiset(a[..]) == multiset(old(a[..]))
    && forall i :: 0 <= i < a.Length && !(low <= i <= high) ==> a[i] == old(a[i])
  }

  /** Everything in [low, high] lies between the two bounds. */
  predicate Bounded(a: array<real>, low: int, high: int, min: real, max: real)
    requires 0 <= low && high < a.Length
    reads a
  {
    forall i :: low <= i <= high ==> min <= a[i] <= max
  }

  predicate SortedRange(a: array<real>, low: int, high: int)
    requires 0 <= low && high < a.Length
    reads a
  {
    forall i, j :: low <= i <= j <= high ==> a[i] <= a[j]
  }

  method Swap(a: array<real>, i: int, j: int)
    requires 0 <= i < a.Length && 0 <= j < a.Length
    modifies a
    ensures a[i] == old(a[j]) && a[j] == old(a[i])
    ensures forall k :: 0 <= k < a.Length && k != i && k != j ==> a[k] == old(a[k])
    ensures multiset(a[..]) == multiset(old(a[..]))
  {
    a[i], a[j] := a[j], a[i];
  }

  /** Lomuto partition around the last element. */
  method Partition(a: array<real>, low: int, high: int, ghost min: real, ghost max: real) returns (p: int)
    requires 0 <= low < high < a.Length && Bounded(a, low, high, min, max)
    modifies a
    ensures low <= p <= high && Rearranged(a, low, high) && Bounded(a, low, high, min, max)
    ensures forall k :: low <= k < p ==> a[k] < a[p]
    ensures forall k :: p < k <= high ==> a[p] <= a[k]
  {
    var pivot := a[high];
    var i := low - 1;
    for j := low to high
      invariant low - 1 <= i < j
      invariant a[high] == pivot
      invariant Rearranged(a, low, high) && Bounded(a, low, high, min, max)
      invariant forall k :: low <= k <= i ==> a[k] < pivot
      invariant forall k :: i < k < j ==> pivot <= a[k]
    {
      if a[j] < pivot {
        i := i + 1;
        Swap(a, i, j);
      }
    }
    Swap(a, i + 1, high);
    p := i + 1;
  }

  /** Sorted below the pivot, sorted above it, and nothing on the wrong side. */
  lemma Joined(a: array<real>, low: int, p: int, high: int, min: real, max: real)
    requires 0 <= low <= p <= high < a.Length
    requires SortedRange(a, low, p - 1) && SortedRange(a, p + 1, high)
    requires Bounded(a, low, p - 1, min, a[p]) && Bounded(a, p + 1, high, a[p], max) && min <= a[p] <= max
    ensures SortedRange(a, low, high) && Bounded(a, low, high, min, max)
  {
    forall i, j | low <= i <= j <= high
      ensures a[i] <= a[j]
    {
      assert i < p ==> a[i] <= a[p];
      assert j > p ==> a[p] <= a[j];
    }
  }

  method SortRange(a: array<real>, low: int, high: int, ghost min: real, ghost max: real)
    requires 0 <= low <= high + 1 <= a.Length && Bounded(a, low, high, min, max)
    modifies a
    ensures Rearranged(a, low, high) && Bounded(a, low, high, min, max) && SortedRange(a, low, high)
    decreases high - low + 1
  {
    if low < high {
      var p := Partition(a, low, high, min, max);
      ghost var pivot := a[p];
      SortRange(a, low, p - 1, min, pivot);
      assert Rearranged(a, low, high) && a[p] == pivot;
      assert Bounded(a, p + 1, high, pivot, max);
      label halfway:
      SortRange(a, p + 1, high, pivot, max);
      assert forall i :: 0 <= i <= p ==> a[i] == old@halfway(a[i]);
      assert Rearranged(a, low, high) && a[p] == pivot;
      Joined(a, low, p, high, min, max);
    }
  }

  lemma {:induction false} HasBounds(s: seq<real>) returns (min: real, max: real)
    ensures forall i :: 0 <= i < |s| ==> min <= s[i] <= max
  {
    if s == [] {
      return 0.0, 0.0;
    }
    min, max := HasBounds(s[1..]);
    min := if s[0] < min then s[0] else min;
    max := if s[0] > max then s[0] else max;
    assert forall i :: 1 <= i < |s| ==> s[i] == s[1..][i - 1];
  }

  method Sort(a: array<real>)
    modifies a
    ensures Sorted(a[..]) && multiset(a[..]) == multiset(old(a[..]))
  {
    if a.Length <= 1 {
      return;
    }
    ghost var min, max := HasBounds(a[..]);
    assert forall i :: 0 <= i < a.Length ==> a[..][i] == a[i];
    SortRange(a, 0, a.Length - 1, min, max);
  }

  // ---------- the sorted arrangement is unique ----------

  lemma FirstIsLeast(s: seq<real>, t: seq<real>)
    requires Sorted(s) && Sorted(t) && multiset(s) == multiset(t) && s != [] && t != []
    ensures s[0] == t[0]
  {
    assert s[0] in multiset(t) && t[0] in multiset(s);
  }

  lemma TailMultiset(s: seq<real>)
    requires s != []
    ensures s == [s[0]] + s[1..] && multiset(s[1..]) == multiset(s) - multiset{s[0]}
  {
    assert s == [s[0]] + s[1..];
  }

  /** Two sorted sequences of the same values are the same sequence. */
  lemma {:induction false} SortedIsUnique(s: seq<real>, t: seq<real>)
    requires Sorted(s) && Sorted(t) && multiset(s) == multiset(t)
    ensures s == t
  {
    assert |s| == |multiset(s)| == |multiset(t)| == |t|;
    if s != [] {
      FirstIsLeast(s, t);
      TailMultiset(s);
      TailMultiset(t);
      SortedIsUnique(s[1..], t[1..]);
    }
  }

  // ---------- the sorted arrangement as a function ----------

  function Insert(x: real, s: seq<real>): (r: seq<real>)
    requires Sorted(s)
    ensures Sorted(r) && multiset(r) == multiset(s) + multiset{x} && |r| == |s| + 1
  {
    if s == [] || x <= s[0] then [x] + s
    else
      var rest := Insert(x, s[1..]);
      InsertedAtLeast(x, s[1..], rest, s[0]);
      Prepended(s[0], x, s, rest);
      [s[0]] + rest
  }

  lemma Prepended(first: real, x: real, s: seq<real>, rest: seq<real>)
    requires s != [] && s[0] == first && Sorted(rest)
    requires multiset(rest) == multiset(s[1..]) + multiset{x}
    requires forall i :: 0 <= i < |rest| ==> first <= rest[i]
    ensures Sorted([first] + rest) && multiset([first] + rest) == multiset(s) + multiset{x}
  {
    TailMultiset(s);
  }

  lemma InsertedAtLeast(x: real, s: seq<real>, r: seq<real>, bound: real)
    requires multiset(r) == multiset(s) + multiset{x} && bound <= x
    requires forall i :: 0 <= i < |s| ==> bound <= s[i]
    ensures forall i :: 0 <= i < |r| ==> bound <= r[i]
  {
    forall i | 0 <= i < |r|
      ensures bound <= r[i]
    {
      assert r[i] in multiset(r);
      assert r[i] == x || r[i] in s;
    }
  }

  function Arranged(s: seq<real>): (r: seq<real>)
    ensures Sorted(r) && multiset(r) == multiset(s) && |r| == |s|
  {
    if s == [] then []
    else
      assert s == [s[0]] + s[1..];
      Insert(s[0], Arranged(s[1..]))
  }

  /** A sorted copy of a list of timestamps, by quicksort. */
  method SortedCopy(ts: seq<real>) returns (s: seq<real>)
    ensures s == Arranged(ts)
  {
    var a := new real[|ts|](i requires 0 <= i < |ts| => ts[i]);
    assert a[..] == ts;
    Sort(a);
    s := a[..];
    SortedIsUnique(s, Arranged(ts));
  }
}
