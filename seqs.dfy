/**
 * Generic sequence helpers shared by the front-end views: filtering by a
 * sequence of flags, and the stable sort by a rank pair that models
 * `Array.prototype.sort` with a comparator that is a difference of ranks.
 */
module Seqs {
  /** The whole of a sequence as a prefix; loops close with it. */
  lemma PrefixWhole<T>(s: seq<T>)
    ensures s[..|s|] == s
  {
  }

  /** A one-longer prefix cut back is the prefix; loop steps use it. */
  lemma PrefixStep<T>(s: seq<T>, c: nat)
    requires c < |s|
    ensures s[..c + 1][..c] == s[..c]
  {
  }

  /** The elements of xs whose flag is set, in order. */
  function Filter<T>(xs: seq<T>, keep: seq<bool>): (r: seq<T>)
    requires |keep| == |xs|
    ensures |r| <= |xs|
  {
    if xs == [] then []
    else
      var n := |xs| - 1;
      Filter(xs[..n], keep[..n]) + (if keep[n] then [xs[n]] else [])
  }

  /** Everything the filter keeps is a flagged element. */
  lemma {:induction false} FilterSound<T>(xs: seq<T>, keep: seq<bool>, y: T)
    requires |keep| == |xs| && y in Filter(xs, keep)
    ensures exists i :: 0 <= i < |xs| && keep[i] && xs[i] == y
  {
    var n := |xs| - 1;
    if y in Filter(xs[..n], keep[..n]) {
      FilterSound(xs[..n], keep[..n], y);
      var i :| 0 <= i < |xs[..n]| && keep[..n][i] && xs[..n][i] == y;
      assert keep[i] && xs[i] == y;
    } else {
      assert keep[n] && xs[n] == y;
    }
  }

  /** Every flagged element is kept. */
  lemma {:induction false} FilterComplete<T>(xs: seq<T>, keep: seq<bool>, i: nat)
    requires |keep| == |xs| && i < |xs| && keep[i]
    ensures xs[i] in Filter(xs, keep)
  {
    var n := |xs| - 1;
    if i < n {
      FilterComplete(xs[..n], keep[..n], i);
      assert xs[..n][i] == xs[i];
    }
  }

  /** The filter keeps each occurrence at most once. */
  lemma {:induction false} FilterSubMultiset<T>(xs: seq<T>, keep: seq<bool>)
    requires |keep| == |xs|
    ensures multiset(Filter(xs, keep)) <= multiset(xs)
  {
    if xs != [] {
      var n := |xs| - 1;
      FilterSubMultiset(xs[..n], keep[..n]);
      assert xs == xs[..n] + [xs[n]];
    }
  }

  /** Lexicographic order on rank pairs (primary, secondary). */
  predicate RankLess(a: (int, int), b: (int, int)) {
    a.0 < b.0 || (a.0 == b.0 && a.1 < b.1)
  }

  /** An element of a list being sorted, with its rank and its position before the sort. */
  datatype Entry<T> = Entry(item: T, rank: (int, int), pos: nat)

  function ItemsOf<T>(es: seq<Entry<T>>): (r: seq<T>)
    ensures |r| == |es| && forall i :: 0 <= i < |es| ==> r[i] == es[i].item
  {
    seq(|es|, i requires 0 <= i < |es| => es[i].item)
  }

  /** x goes before y: lower rank, or the same rank and earlier before the sort. */
  predicate Before<T>(x: Entry<T>, y: Entry<T>) {
    RankLess(x.rank, y.rank) || (x.rank == y.rank && x.pos < y.pos)
  }

  predicate SortedByRank<T>(s: seq<Entry<T>>) {
    forall a, b :: 0 <= a < b < |s| ==> Before(s[a], s[b])
  }

  predicate PositionsIncreasing<T>(s: seq<Entry<T>>) {
    forall a, b :: 0 <= a < b < |s| ==> s[a].pos < s[b].pos
  }

  /** Inserts x before the first entry whose rank is not below x's. */
  function InsertByRank<T>(x: Entry<T>, s: seq<Entry<T>>): seq<Entry<T>> {
    if s == [] || !RankLess(s[0].rank, x.rank) then [x] + s
    else [s[0]] + InsertByRank(x, s[1..])
  }

  /** `problems.sort(comparator)`: a stable sort by rank. */
  function SortByRank<T>(s: seq<Entry<T>>): seq<Entry<T>> {
    if s == [] then [] else InsertByRank(s[0], SortByRank(s[1..]))
  }

  lemma {:induction false} InsertByRankPerm<T>(x: Entry<T>, s: seq<Entry<T>>)
    ensures multiset(InsertByRank(x, s)) == multiset(s) + multiset{x}
  {
    if s != [] && RankLess(s[0].rank, x.rank) {
      InsertByRankPerm(x, s[1..]);
      assert s == [s[0]] + s[1..];
    }
  }

  lemma {:induction false} SortByRankPerm<T>(s: seq<Entry<T>>)
    ensures multiset(SortByRank(s)) == multiset(s)
  {
    if s != [] {
      SortByRankPerm(s[1..]);
      InsertByRankPerm(s[0], SortByRank(s[1..]));
      assert s == [s[0]] + s[1..];
    }
  }

  lemma {:induction false} InsertByRankSorted<T>(x: Entry<T>, s: seq<Entry<T>>)
    requires SortedByRank(s) && forall y :: y in s ==> x.pos < y.pos
    ensures SortedByRank(InsertByRank(x, s))
  {
    if s != [] && RankLess(s[0].rank, x.rank) {
      var rest := InsertByRank(x, s[1..]);
      InsertByRankSorted(x, s[1..]);
      InsertByRankPerm(x, s[1..]);
      forall y | y in rest
        ensures Before(s[0], y)
      {
        assert y in multiset(rest);
        if y != x {
          assert y in s[1..];
        }
      }
    }
  }

  /**
   * The sort orders entries by rank and keeps their earlier order among
   * equal ranks: it returns a permutation of its input sorted by
   * (rank, position before the sort).
   */
  lemma {:induction false} SortByRankSpec<T>(s: seq<Entry<T>>)
    requires PositionsIncreasing(s)
    ensures SortedByRank(SortByRank(s)) && multiset(SortByRank(s)) == multiset(s)
  {
    if s != [] {
      SortByRankSpec(s[1..]);
      SortByRankPerm(s);
      forall y | y in SortByRank(s[1..])
        ensures s[0].pos < y.pos
      {
        assert y in multiset(SortByRank(s[1..]));
        assert y in s[1..];
      }
      InsertByRankSorted(s[0], SortByRank(s[1..]));
    }
  }

  lemma {:induction false} InsertItemsPerm<T>(x: Entry<T>, s: seq<Entry<T>>)
    ensures multiset(ItemsOf(InsertByRank(x, s))) == multiset(ItemsOf(s)) + multiset{x.item}
  {
    if s == [] || !RankLess(s[0].rank, x.rank) {
      assert ItemsOf([x] + s) == [x.item] + ItemsOf(s);
    } else {
      InsertItemsPerm(x, s[1..]);
      assert ItemsOf([s[0]] + InsertByRank(x, s[1..])) == [s[0].item] + ItemsOf(InsertByRank(x, s[1..]));
      assert ItemsOf(s) == [s[0].item] + ItemsOf(s[1..]);
    }
  }

  /** Sorting the entries permutes their items. */
  lemma {:induction false} SortItemsPerm<T>(s: seq<Entry<T>>)
    ensures multiset(ItemsOf(SortByRank(s))) == multiset(ItemsOf(s))
  {
    if s != [] {
      SortItemsPerm(s[1..]);
      InsertItemsPerm(s[0], SortByRank(s[1..]));
      assert ItemsOf(s) == [s[0].item] + ItemsOf(s[1..]);
    }
  }

}
