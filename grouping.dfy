/**
 * The three tabular aggregations the dashboard is built from, on generic keys:
 * `groupby(keys).size()`, `.unstack(fill_value=0)` and
 * `value_counts().nlargest(k)`.
 */
module Grouping {
  import opened Sequences

  /** One row of a `groupby(...).size()` result: a key and the number of rows having it. */
  datatype Group<K> = Group(key: K, size: nat)

  function KeysOf<K>(g: seq<Group<K>>): seq<K> {
    seq(|g|, i requires 0 <= i < |g| => g[i].key)
  }

  function SizesOf<K>(g: seq<Group<K>>): seq<nat> {
    seq(|g|, i requires 0 <= i < |g| => g[i].size)
  }

  /** One group per value of `d`, sized by its occurrences in `ks`. */
  function Tally<K(==,!new)>(ks: seq<K>, d: seq<K>): seq<Group<K>> {
    seq(|d|, i requires 0 <= i < |d| => Group(d[i], multiset(ks)[d[i]]))
  }

  /**
   * `groupby(keys).size()`: one group per key that occurs (rows with a missing
   * key are left out by the caller, as pandas' `dropna=True` does).
   */
  function GroupSizes<K(==,!new)>(ks: seq<K>): (g: seq<Group<K>>)
    ensures NoDuplicates(KeysOf(g))
    ensures forall k :: k in KeysOf(g) <==> k in ks
    ensures forall i :: 0 <= i < |g| ==> g[i].size >= 1
  {
    var d := Distinct(ks);
    assert forall i :: 0 <= i < |d| ==> d[i] in ks;
    assert KeysOf(Tally(ks, d)) == d;
    Tally(ks, d)
  }

  /** The size stored for key `k`, or 0 when no group has it (`fill_value=0`). */
  function SizeOf<K(==,!new)>(g: seq<Group<K>>, k: K): nat {
    if g == [] then 0
    else if g[0].key == k then g[0].size
    else SizeOf(g[1..], k)
  }

  // ---------------------------------------------------------------------------
  // Group sizes

  lemma {:induction false} SizeOfDistinctKeys<K(!new)>(g: seq<Group<K>>, i: nat)
    requires NoDuplicates(KeysOf(g))
    requires i < |g|
    ensures SizeOf(g, g[i].key) == g[i].size
  {
    if i > 0 {
      assert KeysOf(g)[0] != KeysOf(g)[i];
      assert KeysOf(g[1..]) == KeysOf(g)[1..];
      SizeOfDistinctKeys(g[1..], i - 1);
    }
  }

  lemma {:induction false} SizeOfAbsent<K(!new)>(g: seq<Group<K>>, k: K)
    requires k !in KeysOf(g)
    ensures SizeOf(g, k) == 0
  {
    if g != [] {
      assert KeysOf(g)[0] == g[0].key;
      assert KeysOf(g[1..]) == KeysOf(g)[1..];
      SizeOfAbsent(g[1..], k);
    }
  }

  /** Each group's size is the number of rows with its key; absent keys read as 0. */
  lemma GroupSizeIsCount<K(!new)>(ks: seq<K>, k: K)
    ensures SizeOf(GroupSizes(ks), k) == multiset(ks)[k]
  {
    var g := GroupSizes(ks);
    if k in KeysOf(g) {
      var i :| 0 <= i < |g| && KeysOf(g)[i] == k;
      SizeOfDistinctKeys(g, i);
    } else {
      SizeOfAbsent(g, k);
    }
  }

  lemma {:induction false} FilterTally<K(!new)>(ks: seq<K>, d: seq<K>, p: K -> bool, pg: Group<K> -> bool)
    requires forall grp :: pg(grp) == p(grp.key)
    ensures SizesOf(Filter(Tally(ks, d), pg)) == Counts(ks, Filter(d, p))
  {
    if d != [] {
      var d' := d[..|d| - 1];
      assert Tally(ks, d)[..|d| - 1] == Tally(ks, d');
      FilterTally(ks, d', p, pg);
      var rest := Filter(Tally(ks, d'), pg);
      var last := Tally(ks, d)[|d| - 1];
      assert last.key == d[|d| - 1];
      assert pg(last) == p(d[|d| - 1]);
      assert Filter(Tally(ks, d), pg) == rest + (if pg(last) then [last] else []);
      assert Filter(d, p) == Filter(d', p) + (if p(d[|d| - 1]) then [d[|d| - 1]] else []);
      if p(d[|d| - 1]) {
        calc {
          SizesOf(Filter(Tally(ks, d), pg));
          SizesOf(rest + [last]);
          { assert SizesOf(rest + [last]) == SizesOf(rest) + [last.size]; }
          SizesOf(rest) + [last.size];
          Counts(ks, Filter(d', p)) + [multiset(ks)[d[|d| - 1]]];
          { assert Counts(ks, Filter(d', p) + [d[|d| - 1]]) == Counts(ks, Filter(d', p)) + [multiset(ks)[d[|d| - 1]]]; }
          Counts(ks, Filter(d, p));
        }
      } else {
        assert Filter(Tally(ks, d), pg) == rest;
        assert Filter(d, p) == Filter(d', p);
      }
    }
  }

  /**
   * Conservation: the groups whose key satisfies `p` hold, between them, exactly
   * the rows whose key satisfies `p`.
   */
  lemma GroupSizesConserve<K(!new)>(ks: seq<K>, p: K -> bool, pg: Group<K> -> bool)
    requires forall grp :: pg(grp) == p(grp.key)
    ensures Sum(SizesOf(Filter(GroupSizes(ks), pg))) == |Filter(ks, p)|
  {
    var d := Distinct(ks);
    assert GroupSizes(ks) == Tally(ks, d);
    FilterTally(ks, d, p, pg);
    var chosen := Filter(d, p);
    FilterNoDuplicates(d, p);
    var inChosen := (x: K) => x in chosen;
    forall x ensures inChosen(x) <==> x in chosen {}
    CountsPartition(ks, chosen, inChosen);
    forall x | x in ks ensures inChosen(x) == p(x) {
      FilterMultiplicity(d, p, x);
      assert x in d;
      assert x in chosen <==> multiset(chosen)[x] > 0;
    }
    FilterExt(ks, inChosen, p);
  }

  /** With the always-true mask: the group sizes add up to the number of rows. */
  lemma GroupSizesTotal<K(!new)>(ks: seq<K>)
    ensures Sum(SizesOf(GroupSizes(ks))) == |ks|
  {
    var all := (k: K) => true;
    var allGroups := (grp: Group<K>) => true;
    GroupSizesConserve(ks, all, allGroups);
    FilterAll(GroupSizes(ks), allGroups);
    FilterAll(ks, all);
  }

  // ---------------------------------------------------------------------------
  // Unstacking a two-level group table

  /** A wide table: one row per `index` label, one column per `columns` label. */
  datatype Table<R, C> = Table(index: seq<R>, columns: seq<C>, cells: seq<seq<nat>>)

  /**
   * `unstack(fill_value=0)` of a `groupby([row, column]).size()` table: rows are
   * the row labels that occur, columns the column labels that occur, and a
   * combination without a group reads 0.
   */
  function Unstack<R(==,!new), C(==,!new)>(g: seq<Group<(R, C)>>): (t: Table<R, C>)
    ensures |t.cells| == |t.index|
    ensures forall i :: 0 <= i < |t.cells| ==> |t.cells[i]| == |t.columns|
  {
    var idx := Distinct(Firsts(KeysOf(g)));
    var cols := Distinct(Seconds(KeysOf(g)));
    Table(idx, cols,
      seq(|idx|, i requires 0 <= i < |idx| =>
        seq(|cols|, j requires 0 <= j < |cols| => SizeOf(g, (idx[i], cols[j])))))
  }

  /** The total of each row of a table. */
  function RowSums<R, C>(t: Table<R, C>): seq<nat> {
    seq(|t.cells|, i requires 0 <= i < |t.cells| => Sum(t.cells[i]))
  }

  function Total<R, C>(t: Table<R, C>): nat {
    Sum(RowSums(t))
  }

  lemma FirstsMembership<A, B>(s: seq<(A, B)>, a: A)
    ensures a in Firsts(s) <==> exists b :: (a, b) in s
  {
    if a in Firsts(s) {
      var i :| 0 <= i < |s| && Firsts(s)[i] == a;
      assert (a, s[i].1) == s[i];
    }
    if exists b :: (a, b) in s {
      var b :| (a, b) in s;
      var i :| 0 <= i < |s| && s[i] == (a, b);
      assert Firsts(s)[i] == a;
    }
  }

  lemma SecondsMembership<A, B>(s: seq<(A, B)>, b: B)
    ensures b in Seconds(s) <==> exists a :: (a, b) in s
  {
    if b in Seconds(s) {
      var i :| 0 <= i < |s| && Seconds(s)[i] == b;
      assert (s[i].0, b) == s[i];
    }
    if exists a :: (a, b) in s {
      var a :| (a, b) in s;
      var i :| 0 <= i < |s| && s[i] == (a, b);
      assert Seconds(s)[i] == b;
    }
  }

  /**
   * The unstacked count table: distinct row and column labels, exactly those
   * that occur among the keys, and each cell the number of rows with that pair
   * of labels (0 for a pair that never occurs).
   */
  lemma UnstackCells<R(!new), C(!new)>(ks: seq<(R, C)>)
    ensures var t := Unstack(GroupSizes(ks));
      && NoDuplicates(t.index) && NoDuplicates(t.columns)
      && (forall r :: r in t.index <==> r in Firsts(ks))
      && (forall c :: c in t.columns <==> c in Seconds(ks))
      && (forall i, j :: 0 <= i < |t.index| && 0 <= j < |t.columns| ==>
            t.cells[i][j] == multiset(ks)[(t.index[i], t.columns[j])])
  {
    var g := GroupSizes(ks);
    var t := Unstack(g);
    forall r ensures r in t.index <==> r in Firsts(ks) {
      FirstsMembership(KeysOf(g), r);
      FirstsMembership(ks, r);
    }
    forall c ensures c in t.columns <==> c in Seconds(ks) {
      SecondsMembership(KeysOf(g), c);
      SecondsMembership(ks, c);
    }
    forall i, j | 0 <= i < |t.index| && 0 <= j < |t.columns|
      ensures t.cells[i][j] == multiset(ks)[(t.index[i], t.columns[j])]
    {
      GroupSizeIsCount(ks, (t.index[i], t.columns[j]));
    }
  }

  /** Each row of the unstacked table adds up to the number of rows with that row label. */
  lemma UnstackRowSum<R(!new), C(!new)>(ks: seq<(R, C)>, i: nat)
    requires i < |Unstack(GroupSizes(ks)).index|
    ensures var t := Unstack(GroupSizes(ks));
      RowSums(t)[i] == multiset(Firsts(ks))[t.index[i]]
  {
    var t := Unstack(GroupSizes(ks));
    UnstackCells(ks);
    var b := t.index[i];
    var dd := seq(|t.columns|, j requires 0 <= j < |t.columns| => (b, t.columns[j]));
    assert t.cells[i] == Counts(ks, dd);
    assert NoDuplicates(dd);
    var inDd := (x: (R, C)) => x in dd;
    CountsPartition(ks, dd, inDd);
    var hasB := (x: (R, C)) => x.0 == b;
    forall x | x in ks ensures inDd(x) == hasB(x) {
      SecondsMembership(ks, x.1);
      if x.0 == b {
        var j :| 0 <= j < |t.columns| && t.columns[j] == x.1;
        assert dd[j] == x;
      }
    }
    FilterExt(ks, inDd, hasB);
    FilterByFirst(ks, hasB, b);
  }

  /** The whole unstacked table adds up to the number of rows: no row lost, none counted twice. */
  lemma UnstackTotal<R(!new), C(!new)>(ks: seq<(R, C)>)
    ensures Total(Unstack(GroupSizes(ks))) == |ks|
  {
    var t := Unstack(GroupSizes(ks));
    UnstackCells(ks);
    forall i | 0 <= i < |t.index| ensures RowSums(t)[i] == Counts(Firsts(ks), t.index)[i] {
      UnstackRowSum(ks, i);
    }
    assert RowSums(t) == Counts(Firsts(ks), t.index);
    CountsCover(Firsts(ks), t.index);
  }

  // ---------------------------------------------------------------------------
  // Most frequent values

  /** A candidate occurring in `s` at least as often as every other candidate (the first such). */
  function MostFrequent<T(==,!new)>(s: seq<T>, cands: seq<T>): (m: T)
    requires cands != []
    ensures m in cands
    ensures forall x :: x in cands ==> multiset(s)[x] <= multiset(s)[m]
  {
    if |cands| == 1 then cands[0]
    else
      var best := MostFrequent(s, cands[1..]);
      assert forall x :: x in cands ==> x == cands[0] || x in cands[1..];
      if multiset(s)[cands[0]] >= multiset(s)[best] then cands[0] else best
  }

  /**
   * `value_counts().nlargest(k).index`: the `k` most frequent values of `s`
   * (all of them when fewer than `k` are distinct), most frequent first.
   */
  function TopK<T(==,!new)>(s: seq<T>, k: nat): (top: seq<T>)
    ensures NoDuplicates(top)
    ensures forall x :: x in top ==> x in s
    ensures |top| == if k < |Elements(s)| then k else |Elements(s)|
    ensures forall i, j :: 0 <= i < j < |top| ==> multiset(s)[top[i]] >= multiset(s)[top[j]]
    ensures forall x, i :: x in s && x !in top && 0 <= i < |top| ==> multiset(s)[x] <= multiset(s)[top[i]]
    decreases |s|
  {
    if k == 0 || s == [] then
      NoElements(s, k);
      []
    else
      var m := MostFrequent(s, s);
      var notM := (x: T) => x != m;
      var rest := Filter(s, notM);
      FilterDropsSome(s, notM, m);
      var tail := TopK(rest, k - 1);
      TopKCons(s, k, m, notM, tail);
      [m] + tail
  }

  lemma NoElements<T(!new)>(s: seq<T>, k: nat)
    requires k == 0 || s == []
    ensures 0 == if k < |Elements(s)| then k else |Elements(s)|
  {
    if s == [] {
      assert Elements(s) == {};
    }
  }

  /** Removing every occurrence of `m` keeps the other values with their counts, and one value fewer. */
  lemma Without<T(!new)>(s: seq<T>, m: T, notM: T -> bool)
    requires m in s
    requires forall x :: notM(x) == (x != m)
    ensures forall x :: x in Filter(s, notM) <==> x in s && x != m
    ensures forall x :: x != m ==> multiset(Filter(s, notM))[x] == multiset(s)[x]
    ensures |Elements(Filter(s, notM))| == |Elements(s)| - 1
  {
    var rest := Filter(s, notM);
    forall x ensures multiset(rest)[x] == if x != m then multiset(s)[x] else 0 {
      FilterMultiplicity(s, notM, x);
    }
    assert forall x :: x in rest <==> multiset(rest)[x] > 0;
    assert Elements(rest) == Elements(s) - {m};
  }

  /**
   * The ranking of the values other than the most frequent `m`, with `m` put
   * in front, is a ranking of all the values.
   */
  lemma TopKCons<T(!new)>(s: seq<T>, k: nat, m: T, notM: T -> bool, tail: seq<T>)
    requires k > 0 && m in s
    requires forall x :: x in s ==> multiset(s)[x] <= multiset(s)[m]
    requires forall x :: notM(x) == (x != m)
    requires NoDuplicates(tail)
    requires forall x :: x in tail ==> x in Filter(s, notM)
    requires |tail| == if k - 1 < |Elements(Filter(s, notM))| then k - 1 else |Elements(Filter(s, notM))|
    requires forall i, j :: 0 <= i < j < |tail| ==> multiset(Filter(s, notM))[tail[i]] >= multiset(Filter(s, notM))[tail[j]]
    requires forall x, i :: x in Filter(s, notM) && x !in tail && 0 <= i < |tail| ==>
      multiset(Filter(s, notM))[x] <= multiset(Filter(s, notM))[tail[i]]
    ensures NoDuplicates([m] + tail)
    ensures forall x :: x in [m] + tail ==> x in s
    ensures |[m] + tail| == if k < |Elements(s)| then k else |Elements(s)|
    ensures forall i, j :: 0 <= i < j < |[m] + tail| ==> multiset(s)[([m] + tail)[i]] >= multiset(s)[([m] + tail)[j]]
    ensures forall x, i :: x in s && x !in [m] + tail && 0 <= i < |[m] + tail| ==>
      multiset(s)[x] <= multiset(s)[([m] + tail)[i]]
  {
    Without(s, m, notM);
    var rest := Filter(s, notM);
    ConsDistinct(m, tail);
    ConsRanked(multiset(s), multiset(rest), m, tail);
    ConsDominates(s, rest, m, tail);
  }

  lemma ConsDistinct<T(!new)>(m: T, tail: seq<T>)
    requires NoDuplicates(tail) && m !in tail
    ensures NoDuplicates([m] + tail)
  {
    var top := [m] + tail;
    forall i, j | 0 <= i < j < |top| ensures top[i] != top[j] {
      assert top[j] == tail[j - 1];
      if i > 0 {
        assert top[i] == tail[i - 1];
      }
    }
  }

  lemma ConsRanked<T>(ms: multiset<T>, restMs: multiset<T>, m: T, tail: seq<T>)
    requires forall x :: x in tail ==> restMs[x] == ms[x] && ms[x] <= ms[m]
    requires forall i, j :: 0 <= i < j < |tail| ==> restMs[tail[i]] >= restMs[tail[j]]
    ensures forall i, j :: 0 <= i < j < |[m] + tail| ==> ms[([m] + tail)[i]] >= ms[([m] + tail)[j]]
  {
    var top := [m] + tail;
    forall i, j | 0 <= i < j < |top| ensures ms[top[i]] >= ms[top[j]] {
      assert top[j] == tail[j - 1];
      if i > 0 {
        assert top[i] == tail[i - 1];
        assert restMs[tail[i - 1]] >= restMs[tail[j - 1]];
      }
    }
  }

  lemma ConsDominates<T(!new)>(s: seq<T>, rest: seq<T>, m: T, tail: seq<T>)
    requires forall x :: x in s ==> multiset(s)[x] <= multiset(s)[m]
    requires forall x :: x in rest <==> x in s && x != m
    requires forall x :: x != m ==> multiset(rest)[x] == multiset(s)[x]
    requires forall x :: x in tail ==> x in rest
    requires forall x, i :: x in rest && x !in tail && 0 <= i < |tail| ==> multiset(rest)[x] <= multiset(rest)[tail[i]]
    ensures forall x, i :: x in s && x !in [m] + tail && 0 <= i < |[m] + tail| ==>
      multiset(s)[x] <= multiset(s)[([m] + tail)[i]]
  {
    var top := [m] + tail;
    forall x, i | x in s && x !in top && 0 <= i < |top| ensures multiset(s)[x] <= multiset(s)[top[i]] {
      if i > 0 {
        assert top[i] == tail[i - 1] && tail[i - 1] in rest;
        assert multiset(rest)[x] <= multiset(rest)[tail[i - 1]];
      }
    }
  }
}
