/**
 * Generic facts about tables seen as sequences of rows: boolean-mask selection,
 * order-preserving sub-tables, distinct values in first-occurrence order, and
 * counting.
 */
module Sequences {

  /** The rows of `s` for which the mask `p` holds, in their original order. */
  function Filter<T(==,!new)>(s: seq<T>, p: T -> bool): (r: seq<T>)
    ensures |r| <= |s|
    ensures forall x :: x in r ==> p(x) && x in s
  {
    if s == [] then []
    else
      assert s == s[..|s| - 1] + [s[|s| - 1]];
      Filter(s[..|s| - 1], p) + (if p(s[|s| - 1]) then [s[|s| - 1]] else [])
  }

  /** The mask keeps every row it accepts, as often as it occurs, and no other. */
  lemma {:induction false} FilterMultiplicity<T(!new)>(s: seq<T>, p: T -> bool, x: T)
    ensures multiset(Filter(s, p))[x] == if p(x) then multiset(s)[x] else 0
  {
    if s != [] {
      var s' := s[..|s| - 1];
      assert s == s' + [s[|s| - 1]];
      FilterMultiplicity(s', p, x);
    }
  }

  /** A mask selection: exactly the accepted rows, as often as they occur, in their original order. */
  lemma FilterSelects<T(!new)>(s: seq<T>, p: T -> bool)
    ensures IsSubsequence(Filter(s, p), s)
    ensures forall x :: multiset(Filter(s, p))[x] == if p(x) then multiset(s)[x] else 0
  {
    FilterIsSubsequence(s, p);
    forall x ensures multiset(Filter(s, p))[x] == if p(x) then multiset(s)[x] else 0 {
      FilterMultiplicity(s, p, x);
    }
  }

  /** A mask that is the disjoint union of two others selects as many rows as both together. */
  lemma {:induction false} FilterDisjointUnion<T(!new)>(s: seq<T>, p: T -> bool, q: T -> bool, e: T -> bool)
    requires forall x :: p(x) <==> q(x) || e(x)
    requires forall x :: !(q(x) && e(x))
    ensures |Filter(s, p)| == |Filter(s, q)| + |Filter(s, e)|
  {
    if s != [] {
      FilterDisjointUnion(s[..|s| - 1], p, q, e);
    }
  }

  /** `idx` maps each position of `a` to a position of `b` holding the same row, increasingly. */
  ghost predicate Embeds<T>(idx: seq<nat>, a: seq<T>, b: seq<T>) {
    && |idx| == |a|
    && (forall i :: 0 <= i < |idx| ==> idx[i] < |b| && a[i] == b[idx[i]])
    && (forall i, j :: 0 <= i < j < |idx| ==> idx[i] < idx[j])
  }

  /** `a` is `b` with some rows deleted and the rest kept in order. */
  ghost predicate IsSubsequence<T>(a: seq<T>, b: seq<T>) {
    exists idx :: Embeds(idx, a, b)
  }

  predicate NoDuplicates<T(==,!new)>(s: seq<T>) {
    forall i, j :: 0 <= i < j < |s| ==> s[i] != s[j]
  }

  /** The values of `s`, each once, in order of first occurrence (pandas' `unique`). */
  function Distinct<T(==,!new)>(s: seq<T>): (d: seq<T>)
    ensures NoDuplicates(d)
    ensures forall x :: x in d <==> x in s
  {
    if s == [] then []
    else
      var d := Distinct(s[..|s| - 1]);
      assert forall x :: x in s <==> x in s[..|s| - 1] || x == s[|s| - 1] by {
        assert s == s[..|s| - 1] + [s[|s| - 1]];
      }
      if s[|s| - 1] in d then d else d + [s[|s| - 1]]
  }

  /** The set of values occurring in `s`. */
  function Elements<T(==,!new)>(s: seq<T>): set<T> {
    set x | x in s
  }

  function Sum(xs: seq<nat>): nat {
    if xs == [] then 0 else Sum(xs[..|xs| - 1]) + xs[|xs| - 1]
  }

  /** How often each value of `d` occurs in `s`. */
  function Counts<T(==,!new)>(s: seq<T>, d: seq<T>): seq<nat> {
    seq(|d|, j requires 0 <= j < |d| => multiset(s)[d[j]])
  }

  /** The first components of a sequence of pairs. */
  function Firsts<A, B>(s: seq<(A, B)>): seq<A> {
    seq(|s|, i requires 0 <= i < |s| => s[i].0)
  }

  /** The second components of a sequence of pairs. */
  function Seconds<A, B>(s: seq<(A, B)>): seq<B> {
    seq(|s|, i requires 0 <= i < |s| => s[i].1)
  }

  // ---------------------------------------------------------------------------
  // Filtering

  lemma {:induction false} FilterExt<T(!new)>(s: seq<T>, p: T -> bool, q: T -> bool)
    requires forall x :: x in s ==> p(x) == q(x)
    ensures Filter(s, p) == Filter(s, q)
  {
    if s != [] {
      FilterExt(s[..|s| - 1], p, q);
    }
  }

  lemma {:induction false} FilterAll<T(!new)>(s: seq<T>, p: T -> bool)
    requires forall x :: x in s ==> p(x)
    ensures Filter(s, p) == s
  {
    if s != [] {
      var s', last := s[..|s| - 1], s[|s| - 1];
      assert s == s' + [last];
      assert p(last);
      FilterAll(s', p);
      assert Filter(s, p) == Filter(s', p) + [last];
    }
  }

  lemma FilterNone<T(!new)>(s: seq<T>, p: T -> bool)
    requires forall x :: x in s ==> !p(x)
    ensures Filter(s, p) == []
  {
  }

  lemma {:induction false} FilterOfConcat<T(!new)>(a: seq<T>, b: seq<T>, p: T -> bool)
    ensures Filter(a + b, p) == Filter(a, p) + Filter(b, p)
  {
    if b == [] {
      assert a + b == a;
    } else {
      var b' := b[..|b| - 1];
      assert (a + b)[..|a + b| - 1] == a + b';
      FilterOfConcat(a, b', p);
    }
  }

  /** Deleting a row that fails the mask makes the selection strictly smaller. */
  lemma {:induction false} FilterDropsSome<T(!new)>(s: seq<T>, p: T -> bool, x: T)
    requires x in s && !p(x)
    ensures |Filter(s, p)| < |s|
  {
    var s' := s[..|s| - 1];
    if s[|s| - 1] != x {
      assert s == s' + [s[|s| - 1]];
      FilterDropsSome(s', p, x);
    }
  }

  /** Widening a mask by one value `e` adds exactly the rows equal to `e`. */
  lemma {:induction false} FilterAddOne<T(!new)>(s: seq<T>, p: T -> bool, q: T -> bool, e: T)
    requires !q(e)
    requires forall x :: p(x) <==> q(x) || x == e
    ensures |Filter(s, p)| == |Filter(s, q)| + multiset(s)[e]
  {
    if s != [] {
      var s' := s[..|s| - 1];
      assert s == s' + [s[|s| - 1]];
      FilterAddOne(s', p, q, e);
    }
  }

  /** Selecting the rows equal to `b` yields as many rows as `b` occurs. */
  lemma FilterEqualsCount<T(!new)>(s: seq<T>, p: T -> bool, b: T)
    requires forall x :: p(x) <==> x == b
    ensures |Filter(s, p)| == multiset(s)[b]
  {
    var none := (x: T) => false;
    FilterNone(s, none);
    FilterAddOne(s, p, none, b);
  }

  /** Two successive masks select the same rows as their conjunction. */
  lemma {:induction false} FilterFuse<T(!new)>(s: seq<T>, p: T -> bool, q: T -> bool, pq: T -> bool)
    requires forall x :: pq(x) == (p(x) && q(x))
    ensures Filter(Filter(s, p), q) == Filter(s, pq)
  {
    if s != [] {
      var s' := s[..|s| - 1];
      var last := s[|s| - 1];
      FilterFuse(s', p, q, pq);
      FilterOfConcat(Filter(s', p), if p(last) then [last] else [], q);
    }
  }

  /** A selection by a mask that preserves no duplicates. */
  lemma {:induction false} FilterNoDuplicates<T(!new)>(s: seq<T>, p: T -> bool)
    requires NoDuplicates(s)
    ensures NoDuplicates(Filter(s, p))
  {
    if s != [] {
      var s' := s[..|s| - 1];
      assert s == s' + [s[|s| - 1]];
      FilterNoDuplicates(s', p);
    }
  }

  // ---------------------------------------------------------------------------
  // Order-preserving sub-tables

  /** A stricter mask keeps an order-preserving part of what a looser mask keeps. */
  lemma {:induction false} FilterNarrows<T(!new)>(s: seq<T>, p: T -> bool, q: T -> bool) returns (idx: seq<nat>)
    requires forall x :: q(x) ==> p(x)
    ensures Embeds(idx, Filter(s, q), Filter(s, p))
  {
    if s == [] {
      idx := [];
    } else {
      var s' := s[..|s| - 1];
      var last := s[|s| - 1];
      var idx' := FilterNarrows(s', p, q);
      var fq, fp := Filter(s', q), Filter(s', p);
      if q(last) {
        assert Filter(s, q) == fq + [last];
        assert Filter(s, p) == fp + [last];
        idx := idx' + [|fp|];
        EmbedsExtend(idx', fq, fp, last);
      } else {
        assert Filter(s, q) == fq;
        idx := idx';
        if p(last) {
          assert Filter(s, p) == fp + [last];
          EmbedsWiden(idx', fq, fp, [last]);
        }
      }
    }
  }

  lemma EmbedsExtend<T>(idx: seq<nat>, a: seq<T>, b: seq<T>, x: T)
    requires Embeds(idx, a, b)
    ensures Embeds(idx + [|b|], a + [x], b + [x])
  {
    var idx2, a2, b2 := idx + [|b|], a + [x], b + [x];
    forall i | 0 <= i < |idx2| ensures idx2[i] < |b2| && a2[i] == b2[idx2[i]] {
      if i < |idx| {
        assert idx2[i] == idx[i] && a2[i] == a[i] && b2[idx[i]] == b[idx[i]];
      }
    }
  }

  lemma EmbedsWiden<T>(idx: seq<nat>, a: seq<T>, b: seq<T>, c: seq<T>)
    requires Embeds(idx, a, b)
    ensures Embeds(idx, a, b + c)
  {
    forall i | 0 <= i < |idx| ensures idx[i] < |b + c| && a[i] == (b + c)[idx[i]] {
      assert (b + c)[idx[i]] == b[idx[i]];
    }
  }

  lemma FilterIsSubsequence<T(!new)>(s: seq<T>, p: T -> bool)
    ensures IsSubsequence(Filter(s, p), s)
  {
    var all := (x: T) => true;
    var idx := FilterNarrows(s, all, p);
    FilterAll(s, all);
  }

  lemma SubsequenceTransitive<T>(a: seq<T>, b: seq<T>, c: seq<T>)
    requires IsSubsequence(a, b) && IsSubsequence(b, c)
    ensures IsSubsequence(a, c)
  {
    var ab :| Embeds(ab, a, b);
    var bc :| Embeds(bc, b, c);
    var ac := seq(|ab|, i requires 0 <= i < |ab| => bc[ab[i]]);
    assert Embeds(ac, a, c);
  }

  // ---------------------------------------------------------------------------
  // Counting

  lemma {:induction false} SumOfConcat(a: seq<nat>, b: seq<nat>)
    ensures Sum(a + b) == Sum(a) + Sum(b)
  {
    if b == [] {
      assert a + b == a;
    } else {
      var b' := b[..|b| - 1];
      assert (a + b)[..|a + b| - 1] == a + b';
      SumOfConcat(a, b');
    }
  }

  /**
   * Partition of a column by a list of distinct values: the occurrences of the
   * values of `d` add up to the number of rows whose value is in `d`.
   */
  lemma {:induction false} CountsPartition<T(!new)>(s: seq<T>, d: seq<T>, p: T -> bool)
    requires NoDuplicates(d)
    requires forall x :: p(x) <==> x in d
    ensures Sum(Counts(s, d)) == |Filter(s, p)|
  {
    if d == [] {
      FilterNone(s, p);
    } else {
      var d' := d[..|d| - 1];
      var e := d[|d| - 1];
      var q := (x: T) => x in d';
      assert forall x :: x in d <==> x in d' || x == e by {
        assert d == d' + [e];
      }
      assert Counts(s, d)[..|d| - 1] == Counts(s, d');
      CountsPartition(s, d', q);
      FilterAddOne(s, p, q, e);
    }
  }

  /** Every row of `s` is counted once when `d` lists each of its values. */
  lemma CountsCover<T(!new)>(s: seq<T>, d: seq<T>)
    requires NoDuplicates(d)
    requires forall x :: x in s ==> x in d
    ensures Sum(Counts(s, d)) == |s|
  {
    var inD := (x: T) => x in d;
    CountsPartition(s, d, inD);
    FilterAll(s, inD);
  }

  /** Rows whose first component is `b` are as many as the occurrences of `b` among the firsts. */
  lemma {:induction false} FilterByFirst<A(!new), B(!new)>(s: seq<(A, B)>, p: ((A, B)) -> bool, b: A)
    requires forall x :: p(x) <==> x.0 == b
    ensures |Filter(s, p)| == multiset(Firsts(s))[b]
  {
    if s != [] {
      var s' := s[..|s| - 1];
      assert Firsts(s) == Firsts(s') + [s[|s| - 1].0];
      FilterByFirst(s', p, b);
    }
  }
}
