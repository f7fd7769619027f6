/**
 * Loading the similarity results in the front-end (js/api.js): the
 * same-category filter applied to every entry's similar problems, and the
 * per-middle-category reference counts (how often each problem number
 * appears, with similarity at least 0.5, among the similar problems of a
 * category).
 */
module ReferenceCounts {
  import opened Wrappers
  import opened ProblemData

  /** `sim.data.中分類 === item.main_problem.中分類` (an absent field is `undefined` on both sides). */
  predicate SameSubCategory(sim: Similar, main: Problem) {
    sim.data.subCategory == main.subCategory
  }

  /** `similar_problems.filter(...)` for one entry. */
  function FilterSame(sims: seq<Similar>, main: Problem): (r: seq<Similar>)
    ensures |r| <= |sims|
    ensures forall x :: x in r ==> x in sims && SameSubCategory(x, main)
  {
    if |sims| == 0 then []
    else
      var n := |sims| - 1;
      FilterSame(sims[..n], main) + (if SameSubCategory(sims[n], main) then [sims[n]] else [])
  }

  /** The filter distributes over concatenation, so it keeps the relative order of what it keeps. */
  lemma {:induction false} FilterSameAppend(a: seq<Similar>, b: seq<Similar>, main: Problem)
    ensures FilterSame(a + b, main) == FilterSame(a, main) + FilterSame(b, main)
    decreases |b|
  {
    if |b| == 0 {
      assert a + b == a;
    } else {
      var n := |b| - 1;
      assert (a + b)[..|a| + n] == a + b[..n];
      FilterSameAppend(a, b[..n], main);
    }
  }

  /** What the filter keeps is exactly the entries of the same 中分類. */
  lemma {:induction false} FilterSameKeeps(sims: seq<Similar>, main: Problem, x: Similar)
    ensures x in FilterSame(sims, main) <==> x in sims && SameSubCategory(x, main)
  {
    if |sims| > 0 {
      var n := |sims| - 1;
      FilterSameKeeps(sims[..n], main, x);
      assert sims == sims[..n] + [sims[n]];
    }
  }

  /**
   * The results file never carries 中分類, so both sides are absent and
   * the filter keeps every similar problem, in order.
   */
  lemma {:induction false} FilterKeepsAllWithoutField(sims: seq<Similar>, main: Problem)
    requires main.subCategory.None?
    requires forall i :: 0 <= i < |sims| ==> sims[i].data.subCategory.None?
    ensures FilterSame(sims, main) == sims
  {
    if |sims| > 0 {
      var n := |sims| - 1;
      FilterKeepsAllWithoutField(sims[..n], main);
      assert sims == sims[..n] + [sims[n]];
    }
  }

  /** One middle category after the filter. */
  function FilterCategory(c: Category): (r: Category)
    ensures r.name == c.name && |r.items| == |c.items|
    ensures forall i :: 0 <= i < |c.items| ==>
              r.items[i].main == c.items[i].main && r.items[i].similar == FilterSame(c.items[i].similar, c.items[i].main)
  {
    Category(c.name, seq(|c.items|, i requires 0 <= i < |c.items| => Item(c.items[i].main, FilterSame(c.items[i].similar, c.items[i].main))))
  }

  /** `loadData`'s loop: every entry of every category has its similar list filtered in place. */
  method ApplySameCategoryFilter(categories: seq<Category>) returns (filtered: seq<Category>)
    ensures |filtered| == |categories|
    ensures forall c :: 0 <= c < |categories| ==> filtered[c] == FilterCategory(categories[c])
  {
    filtered := categories;
    var c := 0;
    while c < |categories|
      invariant c <= |categories| && |filtered| == |categories|
      invariant forall d :: 0 <= d < c ==> filtered[d] == FilterCategory(categories[d])
      invariant forall d :: c <= d < |categories| ==> filtered[d] == categories[d]
    {
      filtered := filtered[c := FilterCategory(categories[c])];
      c := c + 1;
    }
  }

  /** The similarity from which a similar problem counts as a reference. */
  const Threshold: real := 0.5

  /** Numbers of the similar problems of a list that count, in order. */
  function Referenced(sims: seq<Similar>): (r: seq<int>)
    ensures |r| <= |sims|
  {
    if |sims| == 0 then []
    else
      var n := |sims| - 1;
      Referenced(sims[..n]) + (if sims[n].similarity >= Threshold then [sims[n].data.number] else [])
  }

  /** Numbers of all counted similar problems of a category's entries, entry by entry. */
  function ReferencedIn(items: seq<Item>): seq<int> {
    if |items| == 0 then []
    else
      var n := |items| - 1;
      ReferencedIn(items[..n]) + Referenced(items[n].similar)
  }

  /** The occurrence count of every number in a list. */
  function Histogram(numbers: seq<int>): (r: map<int, nat>)
  {
    if |numbers| == 0 then map[]
    else
      var n := |numbers| - 1;
      var h := Histogram(numbers[..n]);
      h[numbers[n] := (if numbers[n] in h then h[numbers[n]] else 0) + 1]
  }

  /** A histogram holds exactly the numbers of the list, each with its multiplicity. */
  lemma {:induction false} HistogramSpec(numbers: seq<int>)
    ensures forall x :: x in Histogram(numbers) <==> x in multiset(numbers)
    ensures forall x :: x in Histogram(numbers) ==> Histogram(numbers)[x] == multiset(numbers)[x]
  {
    if |numbers| > 0 {
      var n := |numbers| - 1;
      HistogramSpec(numbers[..n]);
      assert numbers == numbers[..n] + [numbers[n]];
    }
  }

  /** `countsInCat[problemId] = (countsInCat[problemId] || 0) + 1`. */
  function Bump(counts: map<int, nat>, k: int): map<int, nat> {
    counts[k := (if k in counts then counts[k] else 0) + 1]
  }

  /** Counting one more number bumps its entry. */
  lemma HistogramSnoc(numbers: seq<int>, x: int)
    ensures Histogram(numbers + [x]) == Bump(Histogram(numbers), x)
  {
    assert (numbers + [x])[..|numbers|] == numbers;
  }

  /** The inner loops: the similar problems of one entry, added to the counts so far. */
  method CountEntry(counts0: map<int, nat>, ghost before: seq<int>, sims: seq<Similar>) returns (counts: map<int, nat>)
    requires counts0 == Histogram(before)
    ensures counts == Histogram(before + Referenced(sims))
  {
    counts := counts0;
    var j := 0;
    assert before + Referenced(sims[..0]) == before;
    while j < |sims|
      invariant j <= |sims|
      invariant counts == Histogram(before + Referenced(sims[..j]))
    {
      assert sims[..j + 1][..j] == sims[..j];
      if sims[j].similarity >= Threshold {
        HistogramSnoc(before + Referenced(sims[..j]), sims[j].data.number);
        assert before + Referenced(sims[..j + 1]) == before + Referenced(sims[..j]) + [sims[j].data.number];
        counts := Bump(counts, sims[j].data.number);
      } else {
        assert Referenced(sims[..j + 1]) == Referenced(sims[..j]);
      }
      j := j + 1;
    }
    assert sims[..j] == sims;
  }

  /** The counts of one middle category: the histogram of its counted numbers. */
  method CountCategory(items: seq<Item>) returns (counts: map<int, nat>)
    ensures counts == Histogram(ReferencedIn(items))
  {
    counts := map[];
    var i := 0;
    while i < |items|
      invariant i <= |items|
      invariant counts == Histogram(ReferencedIn(items[..i]))
    {
      assert items[..i + 1][..i] == items[..i];
      counts := CountEntry(counts, ReferencedIn(items[..i]), items[i].similar);
      i := i + 1;
    }
    assert items[..i] == items;
  }

  /** `referenceCounts` as `calculateReferenceCounts` leaves it. */
  function AllCounts(categories: seq<Category>): map<string, map<int, nat>> {
    if |categories| == 0 then map[]
    else
      var n := |categories| - 1;
      AllCounts(categories[..n])[categories[n].name := Histogram(ReferencedIn(categories[n].items))]
  }

  /**
   * `calculateReferenceCounts`: rebuilds the counts from scratch, one map
   * per middle category.
   */
  method CalculateReferenceCounts(categories: seq<Category>) returns (referenceCounts: map<string, map<int, nat>>)
    ensures referenceCounts == AllCounts(categories)
  {
    referenceCounts := map[];
    var c := 0;
    while c < |categories|
      invariant c <= |categories|
      invariant referenceCounts == AllCounts(categories[..c])
    {
      assert categories[..c + 1][..c] == categories[..c];
      var countsInCat := CountCategory(categories[c].items);
      referenceCounts := referenceCounts[categories[c].name := countsInCat];
      c := c + 1;
    }
    assert categories[..c] == categories;
  }

  /** Every middle category gets a counts map, even when nothing in it counts. */
  lemma {:induction false} AllCountsKeys(categories: seq<Category>)
    ensures AllCounts(categories).Keys == set c | c in categories :: c.name
  {
    if |categories| > 0 {
      var n := |categories| - 1;
      AllCountsKeys(categories[..n]);
      assert categories == categories[..n] + [categories[n]];
    }
  }

  /**
   * The counts of a category: a problem number has an entry exactly when
   * it occurs among the category's similar problems with similarity at
   * least 0.5, and the entry is the number of such occurrences (so the
   * counts add up to the number of those similar problems, and equal
   * numbers from different sources merge).
   */
  lemma CategoryCountsSpec(items: seq<Item>, number: int)
    ensures var counts := Histogram(ReferencedIn(items));
      && (number in counts <==> number in multiset(ReferencedIn(items)))
      && (number in counts ==> counts[number] == multiset(ReferencedIn(items))[number])
  {
    HistogramSpec(ReferencedIn(items));
  }

  /** A similar problem below 0.5 adds nothing to the counts. */
  lemma {:induction false} BelowThresholdIgnored(sims: seq<Similar>, s: Similar)
    requires s.similarity < Threshold
    ensures Referenced(sims + [s]) == Referenced(sims)
  {
    assert (sims + [s])[..|sims|] == sims;
  }
}
