/**
 * The order-preserving filter of Array.prototype.filter, once for every list the scheduler
 * filters: a member's sections, a member's time constraints, the candidates, and the
 * elements of one sort key.
 */
module Filtering {

  /** The elements of `s` that satisfy `p`, in order. */
  function Filter<T>(s: seq<T>, p: T -> bool): (r: seq<T>)
    ensures |r| <= |s|
  {
    if s == [] then [] else Filter(s[..|s| - 1], p) + (if p(s[|s| - 1]) then [s[|s| - 1]] else [])
  }

  lemma {:induction false} FilterMembers<T>(s: seq<T>, p: T -> bool, x: T)
    ensures x in Filter(s, p) <==> x in s && p(x)
  {
    if s != [] {
      FilterMembers(s[..|s| - 1], p, x);
      assert s == s[..|s| - 1] + [s[|s| - 1]];
    }
  }

  /**
   * Filtering distributes over concatenation. With Filter([x], p) being [x] or [], this fixes
   * the order and the multiplicity of every kept element.
   */
  lemma {:induction false} FilterAppend<T>(a: seq<T>, b: seq<T>, p: T -> bool)
    ensures Filter(a + b, p) == Filter(a, p) + Filter(b, p)
  {
    if b == [] {
      assert a + b == a;
    } else {
      var b', y := b[..|b| - 1], b[|b| - 1];
      FilterAppend(a, b', p);
      assert (a + b)[..|a + b| - 1] == a + b';
      assert b[..|b| - 1] == b';
    }
  }

  /** The first element kept is the first element of `s` that satisfies `p`. */
  lemma {:induction false} FilterFirst<T>(s: seq<T>, p: T -> bool)
    requires Filter(s, p) != []
    ensures exists k :: 0 <= k < |s| && s[k] == Filter(s, p)[0] && p(s[k]) && forall j :: 0 <= j < k ==> !p(s[j])
  {
    var s', x := s[..|s| - 1], s[|s| - 1];
    if Filter(s', p) != [] {
      FilterFirst(s', p);
      var k :| 0 <= k < |s'| && s'[k] == Filter(s', p)[0] && p(s'[k]) && forall j :: 0 <= j < k ==> !p(s'[j]);
      assert s[k] == s'[k];
    } else {
      forall j | 0 <= j < |s'| ensures !p(s[j]) {
        FilterMembers(s', p, s'[j]);
      }
    }
  }

  /** Filtering twice is filtering once by both tests. */
  lemma {:induction false} FilterFilter<T>(s: seq<T>, p: T -> bool, q: T -> bool, pq: T -> bool)
    requires forall x :: pq(x) == (p(x) && q(x))
    ensures Filter(Filter(s, p), q) == Filter(s, pq)
  {
    if s != [] {
      var s', x := s[..|s| - 1], s[|s| - 1];
      FilterFilter(s', p, q, pq);
      FilterAppend(Filter(s', p), if p(x) then [x] else [], q);
      assert [x][..0] == [];
    }
  }

  /** The positions of `s` whose element satisfies `p`. */
  function Positions<T>(s: seq<T>, p: T -> bool): set<int> {
    set i | 0 <= i < |s| && p(s[i])
  }

  /** The kept elements are counted by position: as many as the positions whose element passes. */
  lemma {:induction false} FilterCount<T>(s: seq<T>, p: T -> bool)
    ensures |Filter(s, p)| == |Positions(s, p)|
  {
    if s != [] {
      var n := |s| - 1;
      FilterCount(s[..n], p);
      PositionsSnoc(s, p);
    }
  }

  lemma PositionsSnoc<T>(s: seq<T>, p: T -> bool)
    requires s != []
    ensures var n := |s| - 1;
      Positions(s, p) == Positions(s[..n], p) + (if p(s[n]) then {n} else {}) && n !in Positions(s[..n], p)
  {
    var n := |s| - 1;
    forall i ensures i in Positions(s, p) <==> i in Positions(s[..n], p) || (i == n && p(s[n])) {
      if 0 <= i < n {
        assert s[..n][i] == s[i];
      }
    }
  }

  /** Everything is kept exactly when everything passes. */
  lemma {:induction false} FilterAll<T>(s: seq<T>, p: T -> bool)
    ensures |Filter(s, p)| == |s| <==> forall x :: x in s ==> p(x)
  {
    if s != [] {
      var s', x := s[..|s| - 1], s[|s| - 1];
      FilterAll(s', p);
      assert s == s' + [x];
    }
  }
}
