/**
 * The stable sort the scheduler relies on twice: sections by meeting hours, and candidates
 * by sortScore. A comparator that answers 0 keeps the original order, so the model is a
 * stable insertion sort on an integer key.
 */
module Sorting {
  import opened Filtering

  /** `x` placed after every trailing element whose key exceeds key(x): after all elements of key <= key(x). */
  function Insert<T>(t: seq<T>, x: T, key: T -> int): (r: seq<T>)
    ensures |r| == |t| + 1
  {
    if t == [] then [x]
    else if key(t[|t| - 1]) <= key(x) then t + [x]
    else Insert(t[..|t| - 1], x, key) + [t[|t| - 1]]
  }

  /** Insertion sort, inserting the elements of `s` one at a time from the front. */
  function SortedBy<T>(s: seq<T>, key: T -> int): (r: seq<T>)
    ensures |r| == |s|
  {
    if s == [] then [] else Insert(SortedBy(s[..|s| - 1], key), s[|s| - 1], key)
  }

  ghost predicate IsSortedBy<T>(s: seq<T>, key: T -> int) {
    forall i, j :: 0 <= i < j < |s| ==> key(s[i]) <= key(s[j])
  }

  /** The elements of `s` whose key is `k`, in their order in `s`. */
  function WithKey<T>(s: seq<T>, key: T -> int, k: int): seq<T> {
    Filter(s, (x: T) => key(x) == k)
  }

  lemma {:induction false} InsertPermutes<T>(t: seq<T>, x: T, key: T -> int)
    ensures multiset(Insert(t, x, key)) == multiset(t) + multiset{x}
  {
    if t != [] && key(t[|t| - 1]) > key(x) {
      var t', y := t[..|t| - 1], t[|t| - 1];
      InsertPermutes(t', x, key);
      assert t == t' + [y];
    }
  }

  lemma {:induction false} InsertSorted<T>(t: seq<T>, x: T, key: T -> int)
    requires IsSortedBy(t, key)
    ensures IsSortedBy(Insert(t, x, key), key)
  {
    if t != [] && key(t[|t| - 1]) > key(x) {
      var t', y := t[..|t| - 1], t[|t| - 1];
      InsertSorted(t', x, key);
      InsertPermutes(t', x, key);
      var u := Insert(t', x, key);
      forall i | 0 <= i < |u| ensures key(u[i]) <= key(y) {
        assert u[i] in multiset(u);
        assert u[i] == x || u[i] in multiset(t');
      }
    }
  }

  lemma {:induction false} InsertWithKey<T>(t: seq<T>, x: T, key: T -> int, k: int)
    ensures WithKey(Insert(t, x, key), key, k) == WithKey(t, key, k) + (if key(x) == k then [x] else [])
  {
    var has := (z: T) => key(z) == k;
    if t == [] {
      assert [x][..0] == [];
    } else if key(t[|t| - 1]) <= key(x) {
      FilterAppend(t, [x], has);
      assert [x][..0] == [];
    } else {
      var t', y := t[..|t| - 1], t[|t| - 1];
      InsertWithKey(t', x, key, k);
      var u := Insert(t', x, key);
      FilterAppend(u, [y], has);
      FilterAppend(t', [y], has);
      assert t' + [y] == t;
      assert [y][..0] == [];
    }
  }

  /** The result is a permutation of the input. */
  lemma {:induction false} SortedByPermutes<T>(s: seq<T>, key: T -> int)
    ensures multiset(SortedBy(s, key)) == multiset(s)
  {
    if s != [] {
      var s', x := s[..|s| - 1], s[|s| - 1];
      SortedByPermutes(s', key);
      InsertPermutes(SortedBy(s', key), x, key);
      assert s == s' + [x];
    }
  }

  /** The result holds exactly the elements of the input. */
  lemma SortedByMembers<T>(s: seq<T>, key: T -> int, x: T)
    ensures x in SortedBy(s, key) <==> x in s
  {
    SortedByPermutes(s, key);
    assert x in SortedBy(s, key) <==> x in multiset(SortedBy(s, key));
  }

  /** The result is ordered by key. */
  lemma {:induction false} SortedBySorted<T>(s: seq<T>, key: T -> int)
    ensures IsSortedBy(SortedBy(s, key), key)
  {
    if s != [] {
      SortedBySorted(s[..|s| - 1], key);
      InsertSorted(SortedBy(s[..|s| - 1], key), s[|s| - 1], key);
    }
  }

  /** Stability: the elements of each key keep their relative order. */
  lemma {:induction false} SortedByStable<T>(s: seq<T>, key: T -> int, k: int)
    ensures WithKey(SortedBy(s, key), key, k) == WithKey(s, key, k)
  {
    if s != [] {
      SortedByStable(s[..|s| - 1], key, k);
      InsertWithKey(SortedBy(s[..|s| - 1], key), s[|s| - 1], key, k);
    }
  }

  /** Sorting what is already sorted changes nothing. */
  lemma {:induction false} SortedByOfSorted<T>(s: seq<T>, key: T -> int)
    requires IsSortedBy(s, key)
    ensures SortedBy(s, key) == s
  {
    if s != [] {
      var s', x := s[..|s| - 1], s[|s| - 1];
      SortedByOfSorted(s', key);
      assert s' + [x] == s;
    }
  }

  /** Sorting twice sorts once: a second sort by the same key changes nothing. */
  lemma SortedByIdempotent<T>(s: seq<T>, key: T -> int)
    ensures SortedBy(SortedBy(s, key), key) == SortedBy(s, key)
  {
    SortedBySorted(s, key);
    SortedByOfSorted(SortedBy(s, key), key);
  }

  /** The in-place sort of the array, as Array.prototype.sort does it with a key comparator. */
  method SortByKey<T>(a: array<T>, key: T -> int)
    modifies a
    ensures a[..] == SortedBy(old(a[..]), key)
  {
    ghost var s0 := a[..];
    for i := 0 to a.Length
      invariant a[..i] == SortedBy(s0[..i], key)
      invariant a[i..] == s0[i..]
    {
      assert s0[..i + 1][..i] == s0[..i];
      InsertInPlace(a, i, key);
    }
    assert a[..a.Length] == a[..];
    assert s0[..a.Length] == s0;
  }

  lemma InsertPeel<T>(t: seq<T>, j: nat, x: T, key: T -> int)
    requires 0 < j <= |t| && key(t[j - 1]) > key(x)
    ensures Insert(t[..j], x, key) + t[j..] == Insert(t[..j - 1], x, key) + t[j - 1..]
  {
    assert t[..j][..j - 1] == t[..j - 1];
    assert t[j - 1..] == [t[j - 1]] + t[j..];
  }

  lemma InsertStop<T>(t: seq<T>, j: nat, x: T, key: T -> int)
    requires j <= |t| && (j == 0 || key(t[j - 1]) <= key(x))
    ensures Insert(t[..j], x, key) == t[..j] + [x]
  {
  }

  /** Moves a[i] left past the larger-keyed elements of the prefix a[..i]. */
  method InsertInPlace<T>(a: array<T>, i: nat, key: T -> int)
    requires i < a.Length
    modifies a
    ensures a[..i + 1] == Insert(old(a[..i]), old(a[i]), key)
    ensures a[i + 1..] == old(a[i + 1..])
  {
    var x := a[i];
    ghost var t := a[..i];
    ghost var rest := a[i + 1..];
    var j := i;
    assert t[..j] == t && t[j..] == [];
    while j > 0 && key(a[j - 1]) > key(x)
      invariant 0 <= j <= i
      invariant a[..j] == t[..j]
      invariant a[j + 1..i + 1] == t[j..]
      invariant a[i + 1..] == rest
      invariant Insert(t, x, key) == Insert(t[..j], x, key) + t[j..]
    {
      InsertPeel(t, j, x, key);
      assert a[j - 1] == t[j - 1] by {
        assert a[..j][j - 1] == t[..j][j - 1];
      }
      ghost var before := a[..];
      a[j] := a[j - 1];
      ShiftSlices(before, a[..], t, j, i);
      j := j - 1;
    }
    InsertStop(t, j, x, key);
    a[j] := x;
    assert a[..i + 1] == t[..j] + [x] + t[j..] by {
      assert a[..i + 1] == a[..j] + [a[j]] + a[j + 1..i + 1];
    }
  }

  /** Copying cell j - 1 into cell j keeps the prefix before j - 1 and extends the shifted run down to j - 1. */
  lemma ShiftSlices<T>(before: seq<T>, after: seq<T>, t: seq<T>, j: nat, i: nat)
    requires 0 < j <= i < |before| == |after| && |t| == i
    requires before[..j] == t[..j] && before[j + 1..i + 1] == t[j..]
    requires after == before[j := before[j - 1]]
    ensures after[..j - 1] == t[..j - 1] && after[j..i + 1] == t[j - 1..]
    ensures after[i + 1..] == before[i + 1..]
  {
    assert before[j - 1] == t[j - 1] by {
      assert before[..j][j - 1] == t[..j][j - 1];
    }
    assert after[..j - 1] == before[..j][..j - 1];
    assert after[j..i + 1] == [before[j - 1]] + before[j + 1..i + 1];
    assert t[j - 1..] == [t[j - 1]] + t[j..];
  }
}
