/**
 * The detail view of one middle category (js/ui-detail.js): which sort
 * order it opens with, the problem list it shows (untouched filter, then
 * a stable sort by the selected order), the similar-problem panel of each
 * card, and the two click handlers that change the shared state: toggling
 * a check box and adding a reaction.
 *
 * Every comparator of the view is a difference of ranks, so each sort is
 * the stable sort by rank of module Seqs.
 */
module DetailView {
  import opened Wrappers
  import opened ProblemData
  import Review
  import BrowserStorage
  import FrontState
  import opened Seqs

  const ReviewFirst: string := "review-first"
  const RefDesc: string := "ref-desc"
  const OshiDesc: string := "oshi-desc"
  const LikeDesc: string := "like-desc"
  const FearDesc: string := "fear-desc"
  const DefaultOrder: string := "default"

  /** `state.data.categories[middleCat]`: the entries of the first category with that name. */
  function FindCategory(categories: seq<Category>, middleCat: string): (r: Option<seq<Item>>)
    ensures r.None? <==> forall i :: 0 <= i < |categories| ==> categories[i].name != middleCat
    ensures r.Some? ==> exists i :: 0 <= i < |categories| && categories[i].name == middleCat && categories[i].items == r.value
  {
    if |categories| == 0 then None
    else if categories[0].name == middleCat then Some(categories[0].items)
    else
      var rest := FindCategory(categories[1..], middleCat);
      assert forall i :: 1 <= i < |categories| ==> categories[i] == categories[1..][i - 1];
      rest
  }

  /** `items.some(item => shouldHighlightProblem(id, checks))`. */
  predicate HasReviewItems(items: seq<Item>, checks: CheckMap, now: int) {
    exists i :: 0 <= i < |items| && Review.Highlighted(checks, ProblemId(items[i].main), now)
  }

  /** `state.referenceCounts[middleCat] || {}`. */
  function CountsFor(referenceCounts: map<string, map<int, nat>>, middleCat: string): map<int, nat> {
    if middleCat in referenceCounts then referenceCounts[middleCat] else map[]
  }

  /** `countsForThisCat[number] || 0`. */
  function RefCount(refs: map<int, nat>, number: int): nat {
    if number in refs then refs[number] else 0
  }

  /** The parts of the state the problem list reads. */
  datatype View = View(order: string, untouchedOnly: bool, checks: CheckMap,
                       oshi: Counts, like: Counts, fear: Counts, refs: map<int, nat>)

  /** The view of a middle category as the state holds it now. */
  function ViewOf(st: FrontState.AppState, middleCat: string): View
    reads st
  {
    View(st.currentSortOrder, st.showUntouchedOnly, st.problemChecks,
         st.oshiCounts, st.likeCounts, st.fearCounts, CountsFor(st.referenceCounts, middleCat))
  }

  /**
   * The rank of an entry under the selected order; the comparator of that
   * order is the difference of these ranks, compared lexicographically.
   * Any order other than the five named ones sorts by problem number.
   */
  function RankOf(item: Item, v: View, now: int): (int, int) {
    var id := ProblemId(item.main);
    if v.order == ReviewFirst then
      (if Review.Highlighted(v.checks, id, now) then 0 else 1, item.main.number)
    else if v.order == RefDesc then (-(RefCount(v.refs, item.main.number) as int), 0)
    else if v.order == OshiDesc then (-CountOr0(v.oshi, id), 0)
    else if v.order == LikeDesc then (-CountOr0(v.like, id), 0)
    else if v.order == FearDesc then (-CountOr0(v.fear, id), 0)
    else (item.main.number, 0)
  }

  /** The list as the sort receives it: each entry ranked and numbered in order. */
  function Ranked(items: seq<Item>, v: View, now: int): (r: seq<Entry<Item>>)
    ensures |r| == |items|
    ensures forall i :: 0 <= i < |r| ==> r[i] == Entry(items[i], RankOf(items[i], v, now), i)
  {
    seq(|items|, i requires 0 <= i < |items| => Entry(items[i], RankOf(items[i], v, now), i))
  }

  /** Whether each entry is untouched. */
  function UntouchedFlags(items: seq<Item>, checks: CheckMap): (r: seq<bool>)
    ensures |r| == |items| && forall i :: 0 <= i < |items| ==> r[i] == Review.IsProblemUntouched(items[i], checks)
  {
    seq(|items|, i requires 0 <= i < |items| => Review.IsProblemUntouched(items[i], checks))
  }

  /** `problems.filter(item => isProblemUntouched(item, checks))`. */
  function UntouchedItems(items: seq<Item>, checks: CheckMap): seq<Item> {
    Filter(items, UntouchedFlags(items, checks))
  }

  /**
   * "Untouched only" keeps exactly the untouched entries: every entry
   * shown is untouched, and every untouched entry is shown.
   */
  lemma UntouchedItemsSpec(items: seq<Item>, checks: CheckMap)
    ensures forall y :: y in UntouchedItems(items, checks) ==> y in items && Review.IsProblemUntouched(y, checks)
    ensures forall i :: 0 <= i < |items| && Review.IsProblemUntouched(items[i], checks) ==> items[i] in UntouchedItems(items, checks)
    ensures multiset(UntouchedItems(items, checks)) <= multiset(items)
  {
    var flags := UntouchedFlags(items, checks);
    FilterSubMultiset(items, flags);
    forall y | y in UntouchedItems(items, checks)
      ensures y in items && Review.IsProblemUntouched(y, checks)
    {
      FilterSound(items, flags, y);
    }
    forall i | 0 <= i < |items| && Review.IsProblemUntouched(items[i], checks)
      ensures items[i] in UntouchedItems(items, checks)
    {
      FilterComplete(items, flags, i);
    }
  }

  /** The entries the list starts from: a copy, filtered when "untouched only" is set. */
  function Candidates(items: seq<Item>, v: View): seq<Item> {
    if v.untouchedOnly then UntouchedItems(items, v.checks) else items
  }

  /** `renderProblemList`: the entries of the category in the order the cards are drawn. */
  function ProblemList(items: seq<Item>, v: View, now: int): seq<Item> {
    ItemsOf(SortByRank(Ranked(Candidates(items, v), v, now)))
  }

  lemma RankedPositions(items: seq<Item>, v: View, now: int)
    ensures PositionsIncreasing(Ranked(items, v, now))
  {
  }

  /**
   * The list shows exactly the candidate entries (all of them, or the
   * untouched ones), each once per occurrence, in rank order with ties in
   * their order in the results file.
   */
  lemma {:induction false} ProblemListSpec(items: seq<Item>, v: View, now: int)
    ensures var es := SortByRank(Ranked(Candidates(items, v), v, now));
      && ProblemList(items, v, now) == ItemsOf(es)
      && SortedByRank(es)
      && multiset(es) == multiset(Ranked(Candidates(items, v), v, now))
      && multiset(ProblemList(items, v, now)) == multiset(Candidates(items, v))
      && (forall i :: 0 <= i < |es| ==> es[i].rank == RankOf(es[i].item, v, now))
  {
    var cs := Candidates(items, v);
    var rs := Ranked(cs, v, now);
    var es := SortByRank(rs);
    RankedPositions(cs, v, now);
    SortByRankSpec(rs);
    forall i | 0 <= i < |es|
      ensures es[i].rank == RankOf(es[i].item, v, now)
    {
      assert es[i] in multiset(rs);
      assert es[i] in rs;
    }
    SortItemsPerm(rs);
    assert ItemsOf(rs) == cs;
  }

  /** Each entry of the list ranks no lower than every entry drawn before it. */
  lemma ProblemListOrdered(items: seq<Item>, v: View, now: int, a: nat, b: nat)
    requires a < b < |ProblemList(items, v, now)|
    ensures !RankLess(RankOf(ProblemList(items, v, now)[b], v, now), RankOf(ProblemList(items, v, now)[a], v, now))
  {
    ProblemListSpec(items, v, now);
  }

  /** Whether the order is one of the five with a comparator of its own. */
  predicate IsNamedOrder(order: string) {
    order == ReviewFirst || order == RefDesc || order == OshiDesc || order == LikeDesc || order == FearDesc
  }

  /**
   * What each order means for two cards a and b with a drawn first:
   * "review-first" puts due problems first and orders by number within
   * each group; the four count orders put higher counts first; any other
   * order sorts by problem number.
   */
  lemma SortOrderMeaning(items: seq<Item>, v: View, now: int, a: nat, b: nat)
    requires a < b < |ProblemList(items, v, now)|
    ensures var x, y := ProblemList(items, v, now)[a].main, ProblemList(items, v, now)[b].main;
      var hx, hy := Review.Highlighted(v.checks, ProblemId(x), now), Review.Highlighted(v.checks, ProblemId(y), now);
      && (v.order == ReviewFirst ==> (hy ==> hx) && (hx == hy ==> x.number <= y.number))
      && (v.order == RefDesc ==> RefCount(v.refs, x.number) >= RefCount(v.refs, y.number))
      && (v.order == OshiDesc ==> CountOr0(v.oshi, ProblemId(x)) >= CountOr0(v.oshi, ProblemId(y)))
      && (v.order == LikeDesc ==> CountOr0(v.like, ProblemId(x)) >= CountOr0(v.like, ProblemId(y)))
      && (v.order == FearDesc ==> CountOr0(v.fear, ProblemId(x)) >= CountOr0(v.fear, ProblemId(y)))
      && (!IsNamedOrder(v.order) ==> x.number <= y.number)
  {
    ProblemListOrdered(items, v, now, a, b);
  }

  /**
   * With "review-first" and no filter, a category holding a due problem
   * shows a due problem on its first card.
   */
  lemma {:induction false} DueProblemOnTop(items: seq<Item>, v: View, now: int)
    requires v.order == ReviewFirst && !v.untouchedOnly && HasReviewItems(items, v.checks, now)
    ensures |ProblemList(items, v, now)| > 0
    ensures Review.Highlighted(v.checks, ProblemId(ProblemList(items, v, now)[0].main), now)
  {
    var out := ProblemList(items, v, now);
    var i :| 0 <= i < |items| && Review.Highlighted(v.checks, ProblemId(items[i].main), now);
    ProblemListSpec(items, v, now);
    assert items[i] in multiset(out);
    var j :| 0 <= j < |out| && out[j] == items[i];
    if j > 0 {
      SortOrderMeaning(items, v, now, 0, j);
    }
  }

  /** With "untouched only" set, no card shown is due for review. */
  lemma UntouchedListHasNothingDue(items: seq<Item>, v: View, now: int, a: nat)
    requires v.untouchedOnly && a < |ProblemList(items, v, now)|
    ensures Review.IsProblemUntouched(ProblemList(items, v, now)[a], v.checks)
    ensures !Review.Highlighted(v.checks, ProblemId(ProblemList(items, v, now)[a].main), now)
  {
    var x := ProblemList(items, v, now)[a];
    ProblemListSpec(items, v, now);
    UntouchedItemsSpec(items, v.checks);
    assert x in multiset(UntouchedItems(items, v.checks));
    Review.UntouchedNeverHighlighted(v.checks, ProblemId(x.main), now);
  }

  /**
   * `showDetail`: opens a middle category. The order is "review-first"
   * when some problem of the category is due, the stored order otherwise;
   * "untouched only" is restored from storage after a reload or a history
   * move and cleared on ordinary navigation. An unknown category throws
   * before the state is touched (None).
   */
  method ShowDetail(st: FrontState.AppState, store: BrowserStorage.Storage, categories: seq<Category>,
                    middleCat: string, isPopState: bool, now: int) returns (shown: Option<seq<Item>>)
    modifies st
    ensures st.problemChecks == old(st.problemChecks) && st.oshiCounts == old(st.oshiCounts)
    ensures st.likeCounts == old(st.likeCounts) && st.fearCounts == old(st.fearCounts)
    ensures st.archivedProblemIds == old(st.archivedProblemIds) && st.referenceCounts == old(st.referenceCounts)
    ensures FindCategory(categories, middleCat).None? ==>
      shown.None? && st.currentSortOrder == old(st.currentSortOrder) && st.showUntouchedOnly == old(st.showUntouchedOnly)
    ensures FindCategory(categories, middleCat).Some? ==>
      var items := FindCategory(categories, middleCat).value;
      && st.currentSortOrder == (if HasReviewItems(items, st.problemChecks, now) then ReviewFirst
                                 else BrowserStorage.LoadSortOrder(store.items, DefaultOrder))
      && st.showUntouchedOnly == (isPopState && BrowserStorage.LoadShowUntouchedOnly(store.items))
      && shown == Some(ProblemList(items, ViewOf(st, middleCat), now))
  {
    var found := FindCategory(categories, middleCat);
    if found.None? {
      return None;
    }
    var problemsForCheck := found.value;
    if HasReviewItems(problemsForCheck, st.problemChecks, now) {
      st.currentSortOrder := ReviewFirst;
    } else {
      st.currentSortOrder := BrowserStorage.LoadSortOrder(store.items, DefaultOrder);
    }
    if isPopState {
      st.showUntouchedOnly := BrowserStorage.LoadShowUntouchedOnly(store.items);
    } else {
      st.showUntouchedOnly := false;
    }
    shown := Some(ProblemList(problemsForCheck, ViewOf(st, middleCat), now));
  }

  /**
   * The "untouched only" check box handler: sets the flag, stores it and
   * redraws the list of the category.
   */
  method SetUntouchedOnly(st: FrontState.AppState, store: BrowserStorage.Storage, items: seq<Item>,
                          middleCat: string, checked: bool, now: int) returns (shown: seq<Item>)
    modifies st, store
    ensures st.showUntouchedOnly == checked && BrowserStorage.LoadShowUntouchedOnly(store.items) == checked
    ensures store.items == old(store.items)[BrowserStorage.UntouchedKey := BrowserStorage.BoolText(checked)]
    ensures st.problemChecks == old(st.problemChecks) && st.oshiCounts == old(st.oshiCounts)
    ensures st.likeCounts == old(st.likeCounts) && st.fearCounts == old(st.fearCounts)
    ensures st.archivedProblemIds == old(st.archivedProblemIds) && st.referenceCounts == old(st.referenceCounts)
    ensures st.currentSortOrder == old(st.currentSortOrder)
    ensures shown == ProblemList(items, ViewOf(st, middleCat), now)
  {
    st.showUntouchedOnly := checked;
    store.SaveShowUntouchedOnly(st.showUntouchedOnly);
    shown := ProblemList(items, ViewOf(st, middleCat), now);
  }

  /** Similar problems below this score are not shown. */
  const MinShownSimilarity: real := 0.5
  /** At most this many similar problems are listed per card. */
  const ShownSimilarLimit: nat := 5

  function CloseFlags(sims: seq<Similar>): (r: seq<bool>)
    ensures |r| == |sims| && forall i :: 0 <= i < |sims| ==> r[i] == (sims[i].similarity >= MinShownSimilarity)
  {
    seq(|sims|, i requires 0 <= i < |sims| => sims[i].similarity >= MinShownSimilarity)
  }

  /** `similar_problems.filter(sim => sim.similarity >= 0.5)`. */
  function CloseSimilars(sims: seq<Similar>): seq<Similar> {
    Filter(sims, CloseFlags(sims))
  }

  /** `filteredSimilars.slice(0, 5)`: the similar problems listed on the card. */
  function ShownSimilars(sims: seq<Similar>): seq<Similar> {
    var close := CloseSimilars(sims);
    if |close| <= ShownSimilarLimit then close else close[..ShownSimilarLimit]
  }

  /**
   * The card lists at most five similar problems, all scoring at least
   * 0.5 and taken from the similar problems of the entry: the first five
   * of those scoring at least 0.5, in their order, and every one of them
   * when there are no more than five.
   */
  lemma ShownSimilarsSpec(sims: seq<Similar>)
    ensures var shown, close := ShownSimilars(sims), CloseSimilars(sims);
      && |shown| <= ShownSimilarLimit
      && shown == close[..|shown|]
      && (|close| <= ShownSimilarLimit ==> shown == close)
      && (forall s :: s in shown ==> s in sims && s.similarity >= MinShownSimilarity)
      && (forall i :: 0 <= i < |sims| && sims[i].similarity >= MinShownSimilarity ==> sims[i] in close)
  {
    var shown, close := ShownSimilars(sims), CloseSimilars(sims);
    forall s | s in shown
      ensures s in sims && s.similarity >= MinShownSimilarity
    {
      assert s in close;
      FilterSound(sims, CloseFlags(sims), s);
    }
    forall i | 0 <= i < |sims| && sims[i].similarity >= MinShownSimilarity
      ensures sims[i] in close
    {
      FilterComplete(sims, CloseFlags(sims), i);
    }
  }

  /** `filteredSimilars.reduce((sum, sim) => sum + sim.similarity, 0)`. */
  function SimilaritySum(sims: seq<Similar>): real {
    if sims == [] then 0.0 else SimilaritySum(sims[..|sims| - 1]) + sims[|sims| - 1].similarity
  }

  /** The count label of the similar section: "top 5" above five, else the count. */
  datatype SimilarCount = TopFive | Exactly(n: nat)

  /** The heading of the similar section: its count label and the average score in percent. */
  datatype SimilarHeading = SimilarHeading(count: SimilarCount, averagePercent: real)

  /** The similar section of a card; None when no similar problem scores at least 0.5. */
  function SimilarSection(sims: seq<Similar>): Option<SimilarHeading> {
    var close := CloseSimilars(sims);
    if |close| == 0 then None
    else
      var n := |close|;
      Some(SimilarHeading(if n > ShownSimilarLimit then TopFive else Exactly(n),
                          SimilaritySum(close) / (n as real) * 100.0))
  }

  lemma {:induction false} SimilaritySumBounds(sims: seq<Similar>)
    requires forall i :: 0 <= i < |sims| ==> sims[i].similarity >= MinShownSimilarity
    ensures SimilaritySum(sims) >= MinShownSimilarity * (|sims| as real)
    ensures (forall i :: 0 <= i < |sims| ==> sims[i].similarity <= 1.0) ==> SimilaritySum(sims) <= |sims| as real
  {
    if sims != [] {
      SimilaritySumBounds(sims[..|sims| - 1]);
    }
  }

  lemma AverageBetween(total: real, n: real, lo: real, hi: real)
    requires n > 0.0 && lo * n <= total
    ensures total / n >= lo
    ensures total <= hi * n ==> total / n <= hi
  {
    var q := total / n;
    assert q * n == total;
  }

  /**
   * The heading is shown exactly when some similar problem scores at
   * least 0.5; it says "top 5" exactly when more than five do, and its
   * average lies between 50% and 100% when scores are at most 1.
   */
  lemma SimilarSectionSpec(sims: seq<Similar>)
    ensures SimilarSection(sims).Some? <==> exists i :: 0 <= i < |sims| && sims[i].similarity >= MinShownSimilarity
    ensures SimilarSection(sims).Some? ==>
      && (SimilarSection(sims).value.count == TopFive <==> |CloseSimilars(sims)| > ShownSimilarLimit)
      && SimilarSection(sims).value.averagePercent >= 50.0
      && ((forall i :: 0 <= i < |sims| ==> sims[i].similarity <= 1.0) ==> SimilarSection(sims).value.averagePercent <= 100.0)
  {
    var close := CloseSimilars(sims);
    if exists i :: 0 <= i < |sims| && sims[i].similarity >= MinShownSimilarity {
      var i :| 0 <= i < |sims| && sims[i].similarity >= MinShownSimilarity;
      FilterComplete(sims, CloseFlags(sims), i);
    }
    if |close| > 0 {
      var s0 := close[0];
      FilterSound(sims, CloseFlags(sims), s0);
      forall j | 0 <= j < |close|
        ensures MinShownSimilarity <= close[j].similarity
        ensures (forall i :: 0 <= i < |sims| ==> sims[i].similarity <= 1.0) ==> close[j].similarity <= 1.0
      {
        FilterSound(sims, CloseFlags(sims), close[j]);
      }
      SimilaritySumBounds(close);
      AverageBetween(SimilaritySum(close), |close| as real, MinShownSimilarity, 1.0);
    }
  }

  /** The four check boxes of a card: box i is ticked when slot i is a checked slot. */
  function CheckBoxes(checks: CheckMap, id: string): (r: seq<bool>)
    ensures |r| == 4
    ensures forall i :: 0 <= i < 4 ==> (r[i] <==> id in checks && i < |checks[id]| && IsChecked(checks[id][i]))
  {
    seq(4, i requires 0 <= i < 4 => id in checks && i < |checks[id]| && IsChecked(checks[id][i]))
  }

  /** `{checked: false, timestamp: null}`. */
  const UncheckedSlot: Cell := SlotCell(Slot(false, None))

  /** The entry a check click creates for a problem without one. */
  const FreshEntry: seq<Cell> := [UncheckedSlot, UncheckedSlot, UncheckedSlot, UncheckedSlot]

  /** The problem's check array after the click's initialisation step. */
  function EntryOrFresh(checks: CheckMap, id: string): (r: seq<Cell>)
    ensures id !in checks ==> r == FreshEntry && CheckedCount(r) == 0
  {
    if id in checks then checks[id] else FreshEntry
  }

  /** The slot a click writes: the opposite of the old `checked`, stamped when it turns on. */
  function Toggled(c: Cell, now: int): (r: Cell)
    ensures IsChecked(r) <==> !IsChecked(c)
    ensures r.SlotCell? && r.slot.timestamp == (if IsChecked(r) then Some(now) else None)
  {
    var newChecked := !IsChecked(c);
    SlotCell(Slot(newChecked, if newChecked then Some(now) else None))
  }

  /**
   * The check map after a click on box `index` of a problem; None when the
   * click throws because the array has no object at that index.
   */
  function ToggleCheckResult(checks: CheckMap, id: string, index: nat, now: int): (r: Option<CheckMap>)
    ensures r.None? <==> index >= |EntryOrFresh(checks, id)| || EntryOrFresh(checks, id)[index].Null?
    ensures r.Some? ==> r.value.Keys == checks.Keys + {id} && |r.value[id]| == |EntryOrFresh(checks, id)|
  {
    var entry := EntryOrFresh(checks, id);
    if index < |entry| && !entry[index].Null? then Some(checks[id := entry[index := Toggled(entry[index], now)]])
    else None
  }

  /** Replacing one cell changes the checked count by the difference of the two cells. */
  lemma {:induction false} CheckedCountUpdate(cells: seq<Cell>, i: nat, c: Cell)
    requires i < |cells|
    ensures CheckedCount(cells[i := c]) + (if IsChecked(cells[i]) then 1 else 0)
         == CheckedCount(cells) + (if IsChecked(c) then 1 else 0)
  {
    var n := |cells| - 1;
    if i < n {
      CheckedCountUpdate(cells[..n], i, c);
      assert cells[i := c][..n] == cells[..n][i := c];
    } else {
      assert cells[i := c][..n] == cells[..n];
    }
  }

  /**
   * A click flips exactly the box it was on: the box's tick and the
   * problem's checked count change by one, every other box and every
   * other problem keep their state.
   */
  lemma ToggleFlipsOneBox(checks: CheckMap, id: string, index: nat, now: int)
    requires ToggleCheckResult(checks, id, index, now).Some?
    ensures var after := ToggleCheckResult(checks, id, index, now).value;
      var was := IsChecked(EntryOrFresh(checks, id)[index]);
      && IsChecked(after[id][index]) == !was
      && CheckedCountOf(after, id) == CheckedCountOf(checks, id) + (if was then -1 else 1)
      && (index < 4 ==> forall j :: 0 <= j < 4 ==> (CheckBoxes(after, id)[j] <==> (if j == index then !CheckBoxes(checks, id)[j] else CheckBoxes(checks, id)[j])))
      && (forall k :: k in checks && k != id ==> after[k] == checks[k])
  {
    var entry := EntryOrFresh(checks, id);
    CheckedCountUpdate(entry, index, Toggled(entry[index], now));
  }

  /** Clicking the same box twice restores its tick and the problem's checked count. */
  lemma ToggleTwice(checks: CheckMap, id: string, index: nat, now: int, later: int)
    requires ToggleCheckResult(checks, id, index, now).Some?
    ensures var once := ToggleCheckResult(checks, id, index, now).value;
      var twice := ToggleCheckResult(once, id, index, later);
      && twice.Some?
      && IsChecked(twice.value[id][index]) == IsChecked(EntryOrFresh(checks, id)[index])
      && CheckedCountOf(twice.value, id) == CheckedCountOf(checks, id)
  {
    var once := ToggleCheckResult(checks, id, index, now).value;
    ToggleFlipsOneBox(checks, id, index, now);
    ToggleFlipsOneBox(once, id, index, later);
  }

  /**
   * Four clicks on the four boxes of a problem without an entry leave all
   * four slots checked, each stamped with the time of its click.
   */
  lemma FourClicksCheckAll(checks: CheckMap, id: string, t0: int, t1: int, t2: int, t3: int)
    requires id !in checks
    ensures var c1 := ToggleCheckResult(checks, id, 0, t0);
      && c1.Some?
      && var c2 := ToggleCheckResult(c1.value, id, 1, t1);
      && c2.Some?
      && var c3 := ToggleCheckResult(c2.value, id, 2, t2);
      && c3.Some?
      && var c4 := ToggleCheckResult(c3.value, id, 3, t3);
      && c4.Some?
      && c4.value[id] == [SlotCell(Slot(true, Some(t0))), SlotCell(Slot(true, Some(t1))),
                          SlotCell(Slot(true, Some(t2))), SlotCell(Slot(true, Some(t3)))]
      && CheckedCountOf(c4.value, id) == 4
  {
    var c1 := ClickUnchecked(checks, id, 0, t0);
    var c2 := ClickUnchecked(c1, id, 1, t1);
    var c3 := ClickUnchecked(c2, id, 2, t2);
    var c4 := ClickUnchecked(c3, id, 3, t3);
    AllCheckedCount(c4[id]);
  }

  /** A click on an unchecked slot of a stored entry checks it, stamped with the click time. */
  lemma ClickUnchecked(checks: CheckMap, id: string, index: nat, now: int) returns (after: CheckMap)
    requires index < |EntryOrFresh(checks, id)| && EntryOrFresh(checks, id)[index] == UncheckedSlot
    ensures ToggleCheckResult(checks, id, index, now).Some?
    ensures after == ToggleCheckResult(checks, id, index, now).value
    ensures after[id] == EntryOrFresh(checks, id)[index := SlotCell(Slot(true, Some(now)))]
  {
    after := ToggleCheckResult(checks, id, index, now).value;
  }

  /** An entry whose every slot is checked counts all of them. */
  lemma {:induction false} AllCheckedCount(cells: seq<Cell>)
    requires forall i :: 0 <= i < |cells| ==> IsChecked(cells[i])
    ensures CheckedCount(cells) == |cells|
  {
    if |cells| > 0 {
      AllCheckedCount(cells[..|cells| - 1]);
    }
  }


  /**
   * Ticking a box with no ticked box after it makes that box the latest
   * check, stamped now: the problem is not due at that moment.
   */
  lemma FreshCheckNotDue(checks: CheckMap, id: string, index: nat, now: int)
    requires ToggleCheckResult(checks, id, index, now).Some?
    requires !IsChecked(EntryOrFresh(checks, id)[index])
    requires forall j :: index < j < |EntryOrFresh(checks, id)| ==> !IsChecked(EntryOrFresh(checks, id)[j])
    ensures !Review.Highlighted(ToggleCheckResult(checks, id, index, now).value, id, now)
  {
    var after := ToggleCheckResult(checks, id, index, now).value;
    Review.LastCheckedUnique(after[id], index);
  }

  /**
   * The check-box click handler: creates a fresh four-slot entry for a
   * problem without one, flips the clicked slot (stamping it with `now`
   * when it turns on) and stores the checks. When the array holds no
   * object at the index the handler throws after the initialisation, so
   * nothing is stored (ok is false).
   */
  method ToggleCheck(st: FrontState.AppState, store: BrowserStorage.Storage, problemId: string, checkIndex: nat,
                     now: int, stringifyChecks: CheckMap -> string) returns (ok: bool)
    modifies st, store
    ensures var result := ToggleCheckResult(old(st.problemChecks), problemId, checkIndex, now);
      && ok == result.Some?
      && (ok ==> st.problemChecks == result.value
                 && store.items == old(store.items)[BrowserStorage.ChecksKey := stringifyChecks(st.problemChecks)])
      && (!ok ==> st.problemChecks == old(st.problemChecks)[problemId := EntryOrFresh(old(st.problemChecks), problemId)]
                  && store.items == old(store.items))
    ensures st.oshiCounts == old(st.oshiCounts) && st.likeCounts == old(st.likeCounts) && st.fearCounts == old(st.fearCounts)
    ensures st.archivedProblemIds == old(st.archivedProblemIds) && st.referenceCounts == old(st.referenceCounts)
    ensures st.currentSortOrder == old(st.currentSortOrder) && st.showUntouchedOnly == old(st.showUntouchedOnly)
  {
    if problemId !in st.problemChecks {
      st.problemChecks := st.problemChecks[problemId := FreshEntry];
    }
    var entry := st.problemChecks[problemId];
    if checkIndex >= |entry| || entry[checkIndex].Null? {
      return false;
    }
    var newCheckedState := !IsChecked(entry[checkIndex]);
    var newTimestamp := if newCheckedState then Some(now) else None;
    st.problemChecks := st.problemChecks[problemId := entry[checkIndex := SlotCell(Slot(newCheckedState, newTimestamp))]];
    store.SaveJSON(BrowserStorage.ChecksKey, st.problemChecks, stringifyChecks);
    ok := true;
  }

  const OshiReaction: string := "oshi"
  const LikeReaction: string := "like"
  const FearReaction: string := "fear"

  /**
   * The reaction-button handler: one more reaction of the clicked kind for
   * the problem, and that map stored; any other kind changes nothing.
   */
  method AddReaction(st: FrontState.AppState, store: BrowserStorage.Storage, problemId: string,
                     reactionType: string, stringifyCounts: Counts -> string)
    modifies st, store
    ensures st.oshiCounts == if reactionType == OshiReaction then Bumped(old(st.oshiCounts), problemId) else old(st.oshiCounts)
    ensures st.likeCounts == if reactionType == LikeReaction then Bumped(old(st.likeCounts), problemId) else old(st.likeCounts)
    ensures st.fearCounts == if reactionType == FearReaction then Bumped(old(st.fearCounts), problemId) else old(st.fearCounts)
    ensures store.items ==
      if reactionType == OshiReaction then old(store.items)[BrowserStorage.OshiKey := stringifyCounts(st.oshiCounts)]
      else if reactionType == LikeReaction then old(store.items)[BrowserStorage.LikeKey := stringifyCounts(st.likeCounts)]
      else if reactionType == FearReaction then old(store.items)[BrowserStorage.FearKey := stringifyCounts(st.fearCounts)]
      else old(store.items)
    ensures st.problemChecks == old(st.problemChecks) && st.archivedProblemIds == old(st.archivedProblemIds)
    ensures st.referenceCounts == old(st.referenceCounts)
    ensures st.currentSortOrder == old(st.currentSortOrder) && st.showUntouchedOnly == old(st.showUntouchedOnly)
  {
    if reactionType == OshiReaction {
      st.oshiCounts := st.oshiCounts[problemId := CountOr0(st.oshiCounts, problemId) + 1];
      store.SaveJSON(BrowserStorage.OshiKey, st.oshiCounts, stringifyCounts);
    } else if reactionType == LikeReaction {
      st.likeCounts := st.likeCounts[problemId := CountOr0(st.likeCounts, problemId) + 1];
      store.SaveJSON(BrowserStorage.LikeKey, st.likeCounts, stringifyCounts);
    } else if reactionType == FearReaction {
      st.fearCounts := st.fearCounts[problemId := CountOr0(st.fearCounts, problemId) + 1];
      store.SaveJSON(BrowserStorage.FearKey, st.fearCounts, stringifyCounts);
    }
  }
}
