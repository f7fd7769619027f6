/**
 * The index view of the front-end (js/ui-index.js): middle categories
 * grouped under their large category (大項目), the large categories
 * ordered by the number their title starts with, the per-category
 * progress, review and reaction summaries, and the collapse toggle of a
 * large category.
 */
module CategoryIndex {
  import opened Wrappers
  import opened ProblemData
  import opened Seqs
  import Text
  import Review
  import BrowserStorage
  import ProgressSummary
  import DetailView

  /** The large category of a non-empty middle category: that of its first problem. */
  function LargeOf(c: Category): string
    requires |c.items| > 0
  {
    c.items[0].main.large
  }

  /** The middle categories gathered under one large category, in order of appearance. */
  datatype Group = Group(large: string, members: seq<Category>)

  /** The index of the group for `key`, or -1. */
  function GroupIndex(groups: seq<Group>, key: string): (r: int)
    ensures -1 <= r < |groups|
    ensures r >= 0 ==> groups[r].large == key
    ensures r == -1 ==> forall i :: 0 <= i < |groups| ==> groups[i].large != key
  {
    if |groups| == 0 then -1
    else
      var n := |groups| - 1;
      var k := GroupIndex(groups[..n], key);
      if k >= 0 then k else if groups[n].large == key then n else -1
  }

  /** One step of the grouping loop: an empty category is skipped, others join or open their group. */
  function AddCategory(groups: seq<Group>, c: Category): seq<Group> {
    if |c.items| == 0 then groups
    else
      var key := LargeOf(c);
      var k := GroupIndex(groups, key);
      if k < 0 then groups + [Group(key, [c])]
      else groups[k := Group(key, groups[k].members + [c])]
  }

  /** `groupedByLargeCategory` after the loop over all middle categories. */
  function Grouped(categories: seq<Category>): seq<Group> {
    if |categories| == 0 then []
    else
      var n := |categories| - 1;
      AddCategory(Grouped(categories[..n]), categories[n])
  }

  /** The grouping loop of `renderIndex`. */
  method GroupByLarge(categories: seq<Category>) returns (groups: seq<Group>)
    ensures groups == Grouped(categories)
  {
    groups := [];
    var i := 0;
    while i < |categories|
      invariant 0 <= i <= |categories|
      invariant groups == Grouped(categories[..i])
    {
      var problems := categories[i].items;
      if |problems| > 0 {
        var largeCat := problems[0].main.large;
        var k := GroupIndex(groups, largeCat);
        if k < 0 {
          groups := groups + [Group(largeCat, [categories[i]])];
        } else {
          groups := groups[k := Group(largeCat, groups[k].members + [categories[i]])];
        }
      }
      assert categories[..i + 1][..i] == categories[..i];
      i := i + 1;
    }
    assert categories[..i] == categories;
  }

  /** Whether each middle category is non-empty and belongs under `key`. */
  function InGroupFlags(categories: seq<Category>, key: string): (r: seq<bool>)
    ensures |r| == |categories|
    ensures forall j :: 0 <= j < |categories| ==> (r[j] <==> |categories[j].items| > 0 && LargeOf(categories[j]) == key)
  {
    seq(|categories|, j requires 0 <= j < |categories| => |categories[j].items| > 0 && LargeOf(categories[j]) == key)
  }

  /** No two groups share a large category. */
  predicate DistinctKeys(groups: seq<Group>) {
    forall i, j :: 0 <= i < j < |groups| ==> groups[i].large != groups[j].large
  }

  /** Each group holds exactly the non-empty middle categories under it, in their order. */
  predicate MembersExact(categories: seq<Category>, groups: seq<Group>) {
    forall i :: 0 <= i < |groups| ==> groups[i].members == Filter(categories, InGroupFlags(categories, groups[i].large))
  }

  /** Every non-empty middle category has a group. */
  predicate Covers(categories: seq<Category>, groups: seq<Group>) {
    forall j :: 0 <= j < |categories| && |categories[j].items| > 0 ==> GroupIndex(groups, LargeOf(categories[j])) >= 0
  }

  /**
   * The reference meaning of the grouping: one group per large category
   * that some non-empty middle category names, no two groups for the same
   * one, and each group holding exactly the non-empty middle categories
   * under it, in their order.
   */
  predicate GroupsSpec(categories: seq<Category>, groups: seq<Group>) {
    && DistinctKeys(groups)
    && MembersExact(categories, groups)
    && (forall i :: 0 <= i < |groups| ==> |groups[i].members| > 0)
    && Covers(categories, groups)
  }

  lemma FlagsPrefix(categories: seq<Category>, key: string, n: nat)
    requires n <= |categories|
    ensures InGroupFlags(categories, key)[..n] == InGroupFlags(categories[..n], key)
  {
  }

  /** The members under `key` after one more category: those before, and the new one if it belongs. */
  lemma FilterStep(categories: seq<Category>, key: string)
    requires |categories| > 0
    ensures var n := |categories| - 1;
      Filter(categories, InGroupFlags(categories, key))
        == Filter(categories[..n], InGroupFlags(categories[..n], key))
           + (if |categories[n].items| > 0 && LargeOf(categories[n]) == key then [categories[n]] else [])
  {
    FlagsPrefix(categories, key, |categories| - 1);
  }

  /** No earlier category names a key that has no group yet. */
  lemma {:induction false} NoMembersYet(categories: seq<Category>, groups: seq<Group>, key: string)
    requires Covers(categories, groups) && GroupIndex(groups, key) == -1
    ensures Filter(categories, InGroupFlags(categories, key)) == []
  {
    var f := Filter(categories, InGroupFlags(categories, key));
    if f != [] {
      FilterSound(categories, InGroupFlags(categories, key), f[0]);
    }
  }

  /** A new group opens only for a key without one, so keys stay distinct. */
  lemma StepDistinct(groups: seq<Group>, c: Category)
    requires DistinctKeys(groups)
    ensures DistinctKeys(AddCategory(groups, c))
  {
  }

  /** Every group keeps at least one member. */
  lemma StepNonEmpty(groups: seq<Group>, c: Category)
    requires forall i :: 0 <= i < |groups| ==> |groups[i].members| > 0
    ensures var gs := AddCategory(groups, c); forall i :: 0 <= i < |gs| ==> |gs[i].members| > 0
  {
  }

  /** The groups found before stay, and the new category's key has one. */
  lemma {:induction false} StepCovers(categories: seq<Category>)
    requires |categories| > 0
    requires Covers(categories[..|categories| - 1], Grouped(categories[..|categories| - 1]))
    ensures Covers(categories, Grouped(categories))
  {
    var n := |categories| - 1;
    var prefix := categories[..n];
    var prev := Grouped(prefix);
    var gs := Grouped(categories);
    assert gs == AddCategory(prev, categories[n]);
    forall j | 0 <= j < |categories| && |categories[j].items| > 0
      ensures GroupIndex(gs, LargeOf(categories[j])) >= 0
    {
      var key := LargeOf(categories[j]);
      if j < n {
        assert categories[j] == prefix[j];
        var i := GroupIndex(prev, key);
        assert gs[i].large == key;
      } else if GroupIndex(prev, key) < 0 {
        assert gs[|gs| - 1].large == key;
      } else {
        assert gs[GroupIndex(prev, key)].large == key;
      }
    }
  }

  /** Each group's members stay exactly the categories under its key. */
  lemma {:induction false} StepMembers(categories: seq<Category>)
    requires |categories| > 0
    requires var prefix := categories[..|categories| - 1];
      DistinctKeys(Grouped(prefix)) && MembersExact(prefix, Grouped(prefix)) && Covers(prefix, Grouped(prefix))
    ensures MembersExact(categories, Grouped(categories))
  {
    var n := |categories| - 1;
    var prefix := categories[..n];
    var c := categories[n];
    var prev := Grouped(prefix);
    var gs := Grouped(categories);
    assert gs == AddCategory(prev, c);
    forall i | 0 <= i < |gs|
      ensures gs[i].members == Filter(categories, InGroupFlags(categories, gs[i].large))
    {
      FilterStep(categories, gs[i].large);
      if |c.items| > 0 {
        var k := GroupIndex(prev, LargeOf(c));
        if k < 0 && i == |prev| {
          NoMembersYet(prefix, prev, LargeOf(c));
        } else if i != k {
          assert gs[i] == prev[i];
        }
      }
    }
  }

  /** Adding one middle category keeps the meaning of the grouping. */
  lemma GroupedStep(categories: seq<Category>)
    requires |categories| > 0
    requires GroupsSpec(categories[..|categories| - 1], Grouped(categories[..|categories| - 1]))
    ensures GroupsSpec(categories, Grouped(categories))
  {
    var n := |categories| - 1;
    assert Grouped(categories) == AddCategory(Grouped(categories[..n]), categories[n]);
    StepDistinct(Grouped(categories[..n]), categories[n]);
    StepNonEmpty(Grouped(categories[..n]), categories[n]);
    StepCovers(categories);
    StepMembers(categories);
  }

  /** The grouping loop builds exactly the reference grouping. */
  lemma {:induction false} GroupedSpec(categories: seq<Category>)
    ensures GroupsSpec(categories, Grouped(categories))
  {
    if |categories| > 0 {
      GroupedSpec(categories[..|categories| - 1]);
      GroupedStep(categories);
    }
  }

  /** A non-empty middle category under `key`. */
  predicate Under(c: Category, key: string) {
    |c.items| > 0 && LargeOf(c) == key
  }

  /**
   * The position of the first non-empty middle category under `key`, or the
   * number of middle categories when there is none.
   */
  function FirstUnder(categories: seq<Category>, key: string): (r: nat)
    ensures r <= |categories|
    ensures r < |categories| ==> Under(categories[r], key)
    ensures forall j :: 0 <= j < r ==> !Under(categories[j], key)
  {
    if categories == [] then 0
    else
      var n := |categories| - 1;
      var p := FirstUnder(categories[..n], key);
      if p < n then p else if Under(categories[n], key) then n else n + 1
  }

  /** One step of the grouping keeps the keys of the groups before it and may open one for a new key. */
  lemma AddCategoryKeys(groups: seq<Group>, c: Category)
    ensures var gs := AddCategory(groups, c);
      && |groups| <= |gs| <= |groups| + 1
      && (forall i :: 0 <= i < |groups| ==> gs[i].large == groups[i].large)
      && (|gs| > |groups| ==> |c.items| > 0 && gs[|groups|].large == LargeOf(c) && GroupIndex(groups, LargeOf(c)) < 0)
  {
  }

  /** A key that opens a new group first appears at the category that opens it. */
  lemma NewKeyFirst(categories: seq<Category>)
    requires |categories| > 0 && |categories[|categories| - 1].items| > 0
    requires GroupIndex(Grouped(categories[..|categories| - 1]), LargeOf(categories[|categories| - 1])) < 0
    ensures FirstUnder(categories[..|categories| - 1], LargeOf(categories[|categories| - 1])) == |categories| - 1
  {
    var n := |categories| - 1;
    var prefix := categories[..n];
    var key := LargeOf(categories[n]);
    var p := FirstUnder(prefix, key);
    if p < n {
      GroupedSpec(prefix);
    }
  }

  /**
   * The groups come in the order in which their large categories first
   * appear among the non-empty middle categories; this order decides ties
   * in the stable sort of the large categories.
   */
  lemma {:induction false} GroupedOrder(categories: seq<Category>)
    ensures forall i :: 0 <= i < |Grouped(categories)| ==>
      FirstUnder(categories, Grouped(categories)[i].large) < |categories|
    ensures forall i, j :: 0 <= i < j < |Grouped(categories)| ==>
      FirstUnder(categories, Grouped(categories)[i].large) < FirstUnder(categories, Grouped(categories)[j].large)
  {
    if |categories| > 0 {
      var n := |categories| - 1;
      var prefix := categories[..n];
      var c := categories[n];
      var prev := Grouped(prefix);
      var gs := Grouped(categories);
      GroupedOrder(prefix);
      assert gs == AddCategory(prev, c);
      AddCategoryKeys(prev, c);
      forall i | 0 <= i < |prev|
        ensures FirstUnder(categories, gs[i].large) == FirstUnder(prefix, prev[i].large) < n
      {
        assert FirstUnder(prefix, prev[i].large) < n;
      }
      if |gs| > |prev| {
        NewKeyFirst(categories);
        assert FirstUnder(categories, gs[|prev|].large) == n;
      }
    }
  }

  /** `s.split('.')[0]`: the text before the first dot. */
  function BeforeDot(s: string): (r: string)
    ensures |r| <= |s| && r == s[..|r|]
    ensures forall i :: 0 <= i < |r| ==> r[i] != '.'
    ensures |r| == |s| || s[|r|] == '.'
  {
    if s == [] || s[0] == '.' then [] else [s[0]] + BeforeDot(s[1..])
  }

  /** `parseInt(largeCat.split('.')[0], 10)`: the number a title such as "1.基礎理論" starts with. */
  function LeadingNumber(large: string): Option<int> {
    Text.ParseInt(BeforeDot(large))
  }

  lemma {:induction false} BeforeDotOf(a: string, b: string)
    requires forall i :: 0 <= i < |a| ==> a[i] != '.'
    ensures BeforeDot(a + "." + b) == a
  {
    if a != [] {
      BeforeDotOf(a[1..], b);
      assert (a + "." + b)[1..] == a[1..] + "." + b;
    } else {
      assert a + "." + b == "." + b;
    }
  }

  /** A title made of a number, a dot and a name is ranked by that number. */
  lemma LeadingNumberOfTitle(n: int, name: string)
    ensures LeadingNumber(Text.IntToString(n) + "." + name).Some?
    ensures LeadingNumber(Text.IntToString(n) + "." + name).value == n
  {
    var digits := Text.IntToString(n);
    Text.NatToStringDigits(if n < 0 then -n else n);
    assert forall i :: 0 <= i < |digits| ==> digits[i] == '-' || Text.IsDigit(digits[i]);
    BeforeDotOf(digits, name);
    Text.ParseIntRoundTrip(n, []);
    assert digits + [] == digits;
  }

  /** Whether every large-category title starts with a number. */
  predicate AllNumbered(groups: seq<Group>) {
    forall i :: 0 <= i < |groups| ==> LeadingNumber(groups[i].large).Some?
  }

  /** The groups ranked by the number of their title. */
  function RankedGroups(groups: seq<Group>): (r: seq<Entry<Group>>)
    requires AllNumbered(groups)
    ensures |r| == |groups|
    ensures forall i :: 0 <= i < |r| ==> r[i] == Entry(groups[i], (LeadingNumber(groups[i].large).value, 0), i)
  {
    seq(|groups|, i requires 0 <= i < |groups| => Entry(groups[i], (LeadingNumber(groups[i].large).value, 0), i))
  }

  /**
   * `Object.keys(grouped).sort((a, b) => numA - numB)`. When some title
   * has no leading number the comparator yields NaN, which the sort takes
   * as "equal" to everything, and the order is left to the engine: None.
   */
  function OrderedGroups(groups: seq<Group>): Option<seq<Group>> {
    if AllNumbered(groups) then Some(ItemsOf(SortByRank(RankedGroups(groups)))) else None
  }

  /** Every ranked entry, after sorting, still carries its own title's number as its rank. */
  lemma SortedGroupRanks(groups: seq<Group>)
    requires AllNumbered(groups)
    ensures var sorted := SortByRank(RankedGroups(groups));
      forall i :: 0 <= i < |sorted| ==>
        LeadingNumber(sorted[i].item.large).Some? && sorted[i].rank.0 == LeadingNumber(sorted[i].item.large).value
  {
    var rs := RankedGroups(groups);
    var sorted := SortByRank(rs);
    SortByRankSpec(rs);
    forall i | 0 <= i < |sorted|
      ensures LeadingNumber(sorted[i].item.large).Some? && sorted[i].rank.0 == LeadingNumber(sorted[i].item.large).value
    {
      assert sorted[i] in multiset(rs);
      assert sorted[i] in rs;
    }
  }

  /**
   * When every title is numbered, the large categories are shown each
   * exactly once, in order of first appearance among equal numbers (the
   * entries are sorted by number, then by position).
   */
  lemma OrderedGroupsSpec(groups: seq<Group>)
    requires AllNumbered(groups)
    ensures OrderedGroups(groups).Some?
    ensures var sorted := SortByRank(RankedGroups(groups));
      && OrderedGroups(groups).value == ItemsOf(sorted)
      && multiset(ItemsOf(sorted)) == multiset(groups)
      && SortedByRank(sorted)
  {
    var rs := RankedGroups(groups);
    SortByRankSpec(rs);
    SortItemsPerm(rs);
    assert ItemsOf(rs) == groups;
  }

  /** When every title is numbered, the large categories are shown by ascending leading number. */
  lemma OrderedGroupsAscending(groups: seq<Group>)
    requires AllNumbered(groups)
    ensures OrderedGroups(groups).Some?
    ensures var out := OrderedGroups(groups).value;
      && AllNumbered(out)
      && forall a, b :: 0 <= a < b < |out| ==> LeadingNumber(out[a].large).value <= LeadingNumber(out[b].large).value
  {
    var sorted := SortByRank(RankedGroups(groups));
    SortByRankSpec(RankedGroups(groups));
    SortedGroupRanks(groups);
    var out := ItemsOf(sorted);
    forall a, b | 0 <= a < b < |out|
      ensures LeadingNumber(out[a].large).Some? && LeadingNumber(out[b].large).Some?
      ensures LeadingNumber(out[a].large).value <= LeadingNumber(out[b].large).value
    {
      assert Before(sorted[a], sorted[b]);
    }
  }

  /** The progress counters of a category, as `renderIndex` accumulates them. */
  datatype Tally = Tally(problems: nat, nonArchivedChecked: nat, archivedChecked: nat,
                         archivedProblems: nat, reviewItems: nat)

  function AddTally(a: Tally, b: Tally): Tally {
    Tally(a.problems + b.problems, a.nonArchivedChecked + b.nonArchivedChecked,
          a.archivedChecked + b.archivedChecked, a.archivedProblems + b.archivedProblems,
          a.reviewItems + b.reviewItems)
  }

  const NoTally: Tally := Tally(0, 0, 0, 0, 0)

  /** What one problem adds to its category's counters. */
  function ProblemTally(item: Item, checks: CheckMap, archivedIds: seq<string>, now: int): Tally {
    var id := ProblemId(item.main);
    TallyOf(id in archivedIds, CheckedCountOf(checks, id), Review.Highlighted(checks, id, now))
  }

  /** The counters of a problem from whether it is archived, its checked slots and whether it is due. */
  function TallyOf(archived: bool, checkedCount: nat, due: bool): Tally {
    var dueCount := if due then 1 else 0;
    if archived then Tally(1, 0, checkedCount, 1, dueCount) else Tally(1, checkedCount, 0, 0, dueCount)
  }

  /** The counters of a middle category: those of its problems added up. */
  function ItemsTally(items: seq<Item>, checks: CheckMap, archivedIds: seq<string>, now: int): Tally {
    if |items| == 0 then NoTally
    else
      var n := |items| - 1;
      AddTally(ItemsTally(items[..n], checks, archivedIds, now), ProblemTally(items[n], checks, archivedIds, now))
  }

  lemma ItemsTallySnoc(items: seq<Item>, checks: CheckMap, archivedIds: seq<string>, now: int, j: nat)
    requires j < |items|
    ensures ItemsTally(items[..j + 1], checks, archivedIds, now)
         == AddTally(ItemsTally(items[..j], checks, archivedIds, now), ProblemTally(items[j], checks, archivedIds, now))
  {
    assert items[..j + 1][..j] == items[..j];
  }

  /** The counters of a large category: those of its middle categories added up. */
  function LargeTally(members: seq<Category>, checks: CheckMap, archivedIds: seq<string>, now: int): Tally {
    if |members| == 0 then NoTally
    else
      var n := |members| - 1;
      AddTally(LargeTally(members[..n], checks, archivedIds, now), ItemsTally(members[n].items, checks, archivedIds, now))
  }

  /** One turn of the loop over a middle category's problems: the problem's counters added to the running ones. */
  method AddProblem(nonArchivedChecked: nat, archivedChecked: nat, archivedProblems: nat, reviewItems: nat,
                    item: Item, checks: CheckMap, archivedIds: seq<string>, now: int)
    returns (nonArchivedChecked': nat, archivedChecked': nat, archivedProblems': nat, reviewItems': nat)
    ensures var p := ProblemTally(item, checks, archivedIds, now);
      && nonArchivedChecked' == nonArchivedChecked + p.nonArchivedChecked
      && archivedChecked' == archivedChecked + p.archivedChecked
      && archivedProblems' == archivedProblems + p.archivedProblems
      && reviewItems' == reviewItems + p.reviewItems
  {
    nonArchivedChecked', archivedChecked', archivedProblems', reviewItems' :=
      nonArchivedChecked, archivedChecked, archivedProblems, reviewItems;
    var problemId := ProblemId(item.main);
    var isArchived := problemId in archivedIds;
    var checkedCount := CheckedCountOf(checks, problemId);
    if isArchived {
      archivedProblems' := archivedProblems' + 1;
      archivedChecked' := archivedChecked' + checkedCount;
    } else {
      nonArchivedChecked' := nonArchivedChecked' + checkedCount;
    }
    var due := Review.ShouldHighlight(problemId, checks, now);
    if due {
      reviewItems' := reviewItems' + 1;
    }
  }

  /**
   * The loop over a middle category's problems: every problem's checked
   * slots, archived state and review state added to the running counters.
   */
  method CountProblems(nonArchivedChecked0: nat, archivedChecked0: nat, archivedProblems0: nat, reviewItems0: nat,
                       problems: seq<Item>, checks: CheckMap, archivedIds: seq<string>, now: int)
    returns (nonArchivedChecked: nat, archivedChecked: nat, archivedProblems: nat, reviewItems: nat)
    ensures var u := ItemsTally(problems, checks, archivedIds, now);
      && nonArchivedChecked == nonArchivedChecked0 + u.nonArchivedChecked
      && archivedChecked == archivedChecked0 + u.archivedChecked
      && archivedProblems == archivedProblems0 + u.archivedProblems
      && reviewItems == reviewItems0 + u.reviewItems
  {
    nonArchivedChecked, archivedChecked, archivedProblems, reviewItems :=
      nonArchivedChecked0, archivedChecked0, archivedProblems0, reviewItems0;
    var j := 0;
    ghost var u := NoTally;
    while j < |problems|
      invariant 0 <= j <= |problems|
      invariant u == ItemsTally(problems[..j], checks, archivedIds, now)
      invariant nonArchivedChecked == nonArchivedChecked0 + u.nonArchivedChecked
      invariant archivedChecked == archivedChecked0 + u.archivedChecked
      invariant archivedProblems == archivedProblems0 + u.archivedProblems
      invariant reviewItems == reviewItems0 + u.reviewItems
    {
      ItemsTallySnoc(problems, checks, archivedIds, now, j);
      u := AddTally(u, ProblemTally(problems[j], checks, archivedIds, now));
      nonArchivedChecked, archivedChecked, archivedProblems, reviewItems :=
        AddProblem(nonArchivedChecked, archivedChecked, archivedProblems, reviewItems, problems[j], checks, archivedIds, now);
      j := j + 1;
    }
    PrefixWhole(problems);
  }

  /**
   * The body of the loop over a large category's middle categories: the
   * problem count raised by the category's size, then the counters of its
   * problems added.
   */
  method AddProblems(t0: Tally, problems: seq<Item>, checks: CheckMap, archivedIds: seq<string>, now: int)
    returns (t: Tally)
    ensures t == AddTally(t0, ItemsTally(problems, checks, archivedIds, now))
  {
    var totalProblems := t0.problems + |problems|;
    var nonArchivedCheckedCount, archivedCheckedCount, archivedProblemCount, reviewItemCount :=
      CountProblems(t0.nonArchivedChecked, t0.archivedChecked, t0.archivedProblems, t0.reviewItems,
                    problems, checks, archivedIds, now);
    ItemsTallyCount(problems, checks, archivedIds, now);
    t := Tally(totalProblems, nonArchivedCheckedCount, archivedCheckedCount, archivedProblemCount, reviewItemCount);
  }

  /** The counters of a large category, accumulated over its middle categories. */
  method SummarizeLarge(members: seq<Category>, checks: CheckMap, archivedIds: seq<string>, now: int)
    returns (t: Tally)
    ensures t == LargeTally(members, checks, archivedIds, now)
  {
    t := NoTally;
    var i := 0;
    while i < |members|
      invariant 0 <= i <= |members|
      invariant t == LargeTally(members[..i], checks, archivedIds, now)
    {
      t := AddProblems(t, members[i].items, checks, archivedIds, now);
      assert members[..i + 1][..i] == members[..i];
      i := i + 1;
    }
    assert members[..i] == members;
  }

  /** The counters of one problem: one problem, at most one archived and at most one due. */
  predicate UnitTally(t: Tally) {
    t.problems == 1 && t.archivedProblems <= 1 && t.reviewItems <= 1
  }

  /** Non-archived checks fit in four slots per non-archived problem. */
  predicate WithinSlots(t: Tally) {
    t.nonArchivedChecked + 4 * t.archivedProblems <= 4 * t.problems
  }

  lemma ProblemTallyFacts(item: Item, checks: CheckMap, archivedIds: seq<string>, now: int)
    ensures UnitTally(ProblemTally(item, checks, archivedIds, now))
    ensures CheckedCountOf(checks, ProblemId(item.main)) <= 4 ==> WithinSlots(ProblemTally(item, checks, archivedIds, now))
  {
  }

  /** A category's tally counts each of its problems once. */
  lemma {:induction false} ItemsTallyCount(items: seq<Item>, checks: CheckMap, archivedIds: seq<string>, now: int)
    ensures ItemsTally(items, checks, archivedIds, now).problems == |items|
  {
    if |items| > 0 {
      ItemsTallyCount(items[..|items| - 1], checks, archivedIds, now);
    }
  }

  /** The counts of a category always fit inside it; checks fit in the slots when entries hold at most four. */
  lemma {:induction false} ItemsTallyBounds(items: seq<Item>, checks: CheckMap, archivedIds: seq<string>, now: int)
    ensures var t := ItemsTally(items, checks, archivedIds, now);
      && t.problems == |items| && t.archivedProblems <= t.problems && t.reviewItems <= t.problems
      && ((forall i :: 0 <= i < |items| ==> CheckedCountOf(checks, ProblemId(items[i].main)) <= 4) ==> WithinSlots(t))
  {
    if |items| > 0 {
      var n := |items| - 1;
      ItemsTallyBounds(items[..n], checks, archivedIds, now);
      ProblemTallyFacts(items[n], checks, archivedIds, now);
    }
  }

  /**
   * The progress percentage of a category: its non-archived checks in
   * quarters plus its archived problems, over its problem count; 0 for no
   * problems. Checks on archived problems do not count.
   */
  function CategoryPercentage(t: Tally): (r: real)
    ensures t.problems == 0 ==> r == 0.0
    ensures r >= 0.0
    ensures WithinSlots(t) ==> r <= 100.0
  {
    if t.problems > 0 then
      var n := t.problems as real;
      var completed := (t.nonArchivedChecked as real / 4.0) / n * 100.0;
      var archived := (t.archivedProblems as real / n) * 100.0;
      var share := t.nonArchivedChecked as real / 4.0 + t.archivedProblems as real;
      assert completed + archived == share / n * 100.0 by {
        assert (t.nonArchivedChecked as real / 4.0) / n + t.archivedProblems as real / n == share / n;
      }
      ProgressSummary.RatioBound(share, n);
      completed + archived
    else 0.0
  }

  /**
   * The percentage shown for a middle category lies between 0 and 100
   * when no entry has more than four checked slots.
   */
  lemma PercentageBounds(items: seq<Item>, checks: CheckMap, archivedIds: seq<string>, now: int)
    requires forall i :: 0 <= i < |items| ==> CheckedCountOf(checks, ProblemId(items[i].main)) <= 4
    ensures 0.0 <= CategoryPercentage(ItemsTally(items, checks, archivedIds, now)) <= 100.0
  {
    ItemsTallyBounds(items, checks, archivedIds, now);
  }

  /**
   * A large category counts the problems of all its middle categories,
   * and no more archived or due problems than that.
   */
  lemma {:induction false} LargeTallySpec(members: seq<Category>, checks: CheckMap, archivedIds: seq<string>, now: int)
    ensures var t := LargeTally(members, checks, archivedIds, now);
      && t.problems == ProgressSummary.TotalProblems(members)
      && t.archivedProblems <= t.problems && t.reviewItems <= t.problems
  {
    if |members| > 0 {
      var n := |members| - 1;
      LargeTallySpec(members[..n], checks, archivedIds, now);
      ItemsTallyBounds(members[n].items, checks, archivedIds, now);
    }
  }

  lemma {:induction false} ReviewItemsPrefix(items: seq<Item>, checks: CheckMap, archivedIds: seq<string>, now: int, j: nat)
    requires j <= |items|
    ensures ItemsTally(items[..j], checks, archivedIds, now).reviewItems
         == ProgressSummary.CountTrue(ProgressSummary.DueFlags(items, checks, now)[..j])
  {
    if j > 0 {
      ReviewItemsPrefix(items, checks, archivedIds, now, j - 1);
      ItemsTallySnoc(items, checks, archivedIds, now, j - 1);
      ProgressSummary.CountTrueSnoc(ProgressSummary.DueFlags(items, checks, now), j - 1);
    }
  }

  /**
   * The review badge of a middle category counts the same due problems as
   * the header's total, and shows exactly when the category holds a due
   * problem (the condition under which opening it selects "review-first").
   */
  lemma ReviewBadgeSpec(items: seq<Item>, checks: CheckMap, archivedIds: seq<string>, now: int)
    ensures var t := ItemsTally(items, checks, archivedIds, now);
      && t.reviewItems == ProgressSummary.CountTrue(ProgressSummary.DueFlags(items, checks, now))
      && (t.reviewItems > 0 <==> DetailView.HasReviewItems(items, checks, now))
  {
    var flags := ProgressSummary.DueFlags(items, checks, now);
    ReviewItemsPrefix(items, checks, archivedIds, now, |items|);
    assert flags[..|items|] == flags;
    assert items[..|items|] == items;
    ProgressSummary.CountTrueZero(flags);
  }

  /** Rewriting the entry of an archived id leaves what a category's percentage reads as it was. */
  lemma {:induction false} ProgressKept(items: seq<Item>, checks: CheckMap, archivedIds: seq<string>, now: int,
                                        id: string, entry: seq<Cell>)
    requires id in archivedIds
    ensures var a, b := ItemsTally(items, checks[id := entry], archivedIds, now), ItemsTally(items, checks, archivedIds, now);
      a.problems == b.problems && a.nonArchivedChecked == b.nonArchivedChecked && a.archivedProblems == b.archivedProblems
  {
    if |items| > 0 {
      var n := |items| - 1;
      ProgressKept(items[..n], checks, archivedIds, now, id, entry);
      ProgressShareKept(items[n], checks, archivedIds, now, id, entry);
    }
  }

  /** Rewriting the entry of an archived id leaves what each problem adds to the percentage as it was. */
  lemma ProgressShareKept(item: Item, checks: CheckMap, archivedIds: seq<string>, now: int, id: string, entry: seq<Cell>)
    requires id in archivedIds
    ensures var a, b := ProblemTally(item, checks[id := entry], archivedIds, now), ProblemTally(item, checks, archivedIds, now);
      a.problems == b.problems && a.nonArchivedChecked == b.nonArchivedChecked && a.archivedProblems == b.archivedProblems
  {
    var pid := ProblemId(item.main);
    if pid != id {
      assert CheckedCountOf(checks[id := entry], pid) == CheckedCountOf(checks, pid);
    }
  }

  /**
   * Ticking or unticking a box of an archived problem leaves the progress
   * percentage of every middle category unchanged.
   */
  lemma ArchivedChecksIgnored(items: seq<Item>, checks: CheckMap, archivedIds: seq<string>, now: int,
                              id: string, index: nat, later: int)
    requires id in archivedIds
    requires DetailView.ToggleCheckResult(checks, id, index, later).Some?
    ensures var after := DetailView.ToggleCheckResult(checks, id, index, later).value;
      CategoryPercentage(ItemsTally(items, after, archivedIds, now))
        == CategoryPercentage(ItemsTally(items, checks, archivedIds, now))
  {
    var entry := DetailView.EntryOrFresh(checks, id);
    var after := checks[id := entry[index := DetailView.Toggled(entry[index], later)]];
    assert DetailView.ToggleCheckResult(checks, id, index, later).value == after;
    ProgressKept(items, checks, archivedIds, now, id, entry[index := DetailView.Toggled(entry[index], later)]);
    PercentageOfShare(ItemsTally(items, after, archivedIds, now), ItemsTally(items, checks, archivedIds, now));
  }

  /** The percentage reads only the problem count, the non-archived checks and the archived problems. */
  lemma PercentageOfShare(t: Tally, u: Tally)
    requires t.problems == u.problems && t.nonArchivedChecked == u.nonArchivedChecked
    requires t.archivedProblems == u.archivedProblems
    ensures CategoryPercentage(t) == CategoryPercentage(u)
  {
  }

  /** Each problem's count in a reaction map, 0 when missing. */
  function ReactionCounts(items: seq<Item>, counts: Counts): (r: seq<int>)
    ensures |r| == |items| && forall i :: 0 <= i < |items| ==> r[i] == CountOr0(counts, ProblemId(items[i].main))
  {
    seq(|items|, i requires 0 <= i < |items| => CountOr0(counts, ProblemId(items[i].main)))
  }

  function IntSum(xs: seq<int>): int {
    if |xs| == 0 then 0 else IntSum(xs[..|xs| - 1]) + xs[|xs| - 1]
  }

  lemma IntSumSnoc(xs: seq<int>, j: nat)
    requires j < |xs|
    ensures IntSum(xs[..j + 1]) == IntSum(xs[..j]) + xs[j]
  {
    assert xs[..j + 1][..j] == xs[..j];
  }

  /** Whether each problem of a category has the given id. */
  function IdFlags(items: seq<Item>, id: string): (r: seq<bool>)
    ensures |r| == |items| && forall i :: 0 <= i < |items| ==> r[i] == (ProblemId(items[i].main) == id)
  {
    seq(|items|, i requires 0 <= i < |items| => ProblemId(items[i].main) == id)
  }

  /** The oshi, like and fear totals shown on a middle category. */
  datatype Reactions = Reactions(oshi: int, like: int, fear: int)

  /** A middle category's line on the index: its reaction totals and its counters. */
  datatype MiddleSummary = MiddleSummary(reactions: Reactions, tally: Tally)

  /**
   * The summary of one middle category: one loop adding up the reaction
   * counts, one counting checked slots and archived problems, and one
   * counting the problems due for review (the same loop as the header's
   * count), each a method of its own here.
   */
  method SummarizeMiddle(problems: seq<Item>, checks: CheckMap, archivedIds: seq<string>,
                         oshi: Counts, like: Counts, fear: Counts, now: int) returns (s: MiddleSummary)
    ensures s.reactions == Reactions(IntSum(ReactionCounts(problems, oshi)), IntSum(ReactionCounts(problems, like)),
                                     IntSum(ReactionCounts(problems, fear)))
    ensures s.tally == ItemsTally(problems, checks, archivedIds, now)
  {
    var reactions := SumReactions(problems, oshi, like, fear);
    var nonArchivedCheckedCount, archivedCheckedCount, archivedProblemCount := CountProgress(problems, checks, archivedIds, now);
    var reviewItemCount := ProgressSummary.CountDue(0, problems, checks, now);
    ReviewBadgeSpec(problems, checks, archivedIds, now);
    ItemsTallyBounds(problems, checks, archivedIds, now);
    s := MiddleSummary(reactions,
                       Tally(|problems|, nonArchivedCheckedCount, archivedCheckedCount, archivedProblemCount, reviewItemCount));
  }

  /** The running reaction total of one map after one more problem, and at the end of the list. */
  lemma ReactionSumStep(problems: seq<Item>, counts: Counts, j: nat)
    requires j < |problems|
    ensures IntSum(ReactionCounts(problems, counts)[..j + 1])
         == IntSum(ReactionCounts(problems, counts)[..j]) + CountOr0(counts, ProblemId(problems[j].main))
    ensures j + 1 == |problems| ==> IntSum(ReactionCounts(problems, counts)[..j + 1]) == IntSum(ReactionCounts(problems, counts))
  {
    var xs := ReactionCounts(problems, counts);
    IntSumSnoc(xs, j);
    PrefixWhole(xs);
  }

  /** The reaction totals of a middle category: every problem's three counts added up. */
  method SumReactions(problems: seq<Item>, oshi: Counts, like: Counts, fear: Counts) returns (r: Reactions)
    ensures r == Reactions(IntSum(ReactionCounts(problems, oshi)), IntSum(ReactionCounts(problems, like)),
                           IntSum(ReactionCounts(problems, fear)))
  {
    var totalOshi, totalLike, totalFear := 0, 0, 0;
    var j := 0;
    while j < |problems|
      invariant 0 <= j <= |problems|
      invariant totalOshi == IntSum(ReactionCounts(problems, oshi)[..j])
      invariant totalLike == IntSum(ReactionCounts(problems, like)[..j])
      invariant totalFear == IntSum(ReactionCounts(problems, fear)[..j])
      invariant j == |problems| ==> totalOshi == IntSum(ReactionCounts(problems, oshi))
      invariant j == |problems| ==> totalLike == IntSum(ReactionCounts(problems, like))
      invariant j == |problems| ==> totalFear == IntSum(ReactionCounts(problems, fear))
    {
      var problemId := ProblemId(problems[j].main);
      ReactionSumStep(problems, oshi, j);
      ReactionSumStep(problems, like, j);
      ReactionSumStep(problems, fear, j);
      totalOshi := totalOshi + CountOr0(oshi, problemId);
      totalLike := totalLike + CountOr0(like, problemId);
      totalFear := totalFear + CountOr0(fear, problemId);
      j := j + 1;
    }
    r := Reactions(totalOshi, totalLike, totalFear);
  }

  /** The checked slots of non-archived and of archived problems, and the archived problem count. */
  method CountProgress(problems: seq<Item>, checks: CheckMap, archivedIds: seq<string>, now: int)
    returns (nonArchivedCheckedCount: nat, archivedCheckedCount: nat, archivedProblemCount: nat)
    ensures var t := ItemsTally(problems, checks, archivedIds, now);
      nonArchivedCheckedCount == t.nonArchivedChecked && archivedCheckedCount == t.archivedChecked
      && archivedProblemCount == t.archivedProblems
  {
    nonArchivedCheckedCount, archivedCheckedCount, archivedProblemCount := 0, 0, 0;
    var j := 0;
    while j < |problems|
      invariant 0 <= j <= |problems|
      invariant var t := ItemsTally(problems[..j], checks, archivedIds, now);
        nonArchivedCheckedCount == t.nonArchivedChecked && archivedCheckedCount == t.archivedChecked
        && archivedProblemCount == t.archivedProblems
    {
      var problemId := ProblemId(problems[j].main);
      var isArchived := problemId in archivedIds;
      var checkedCount := CheckedCountOf(checks, problemId);
      ItemsTallySnoc(problems, checks, archivedIds, now, j);
      if isArchived {
        archivedProblemCount := archivedProblemCount + 1;
        archivedCheckedCount := archivedCheckedCount + checkedCount;
      } else {
        nonArchivedCheckedCount := nonArchivedCheckedCount + checkedCount;
      }
      j := j + 1;
    }
    assert problems[..j] == problems;
  }

  /**
   * One more reaction on a problem raises a category's total of that kind
   * by the number of the category's entries for that problem.
   */
  lemma {:induction false} ReactionTotalBump(items: seq<Item>, counts: Counts, id: string, j: nat)
    requires j <= |items|
    ensures IntSum(ReactionCounts(items, Bumped(counts, id))[..j])
         == IntSum(ReactionCounts(items, counts)[..j]) + ProgressSummary.CountTrue(IdFlags(items, id)[..j])
  {
    if j > 0 {
      ReactionTotalBump(items, counts, id, j - 1);
      IntSumSnoc(ReactionCounts(items, Bumped(counts, id)), j - 1);
      IntSumSnoc(ReactionCounts(items, counts), j - 1);
      ProgressSummary.CountTrueSnoc(IdFlags(items, id), j - 1);
    }
  }

  /**
   * The collapse toggle of a large category: flips what is shown, stores
   * the new state under that category's key and touches no other key.
   */
  method ToggleCollapse(store: BrowserStorage.Storage, largeCat: string, currentlyCollapsed: bool)
    returns (collapsed: bool)
    modifies store
    ensures collapsed == !currentlyCollapsed
    ensures store.items == old(store.items)[BrowserStorage.CollapseKey(largeCat) := BrowserStorage.BoolText(collapsed)]
    ensures BrowserStorage.IsMajorCatCollapsed(store.items, largeCat) == collapsed
  {
    if currentlyCollapsed {
      store.SetMajorCatCollapsed(largeCat, false);
      collapsed := false;
    } else {
      store.SetMajorCatCollapsed(largeCat, true);
      collapsed := true;
    }
  }

  /** A click on a title shown as it is stored flips the stored state. */
  lemma CollapseClickFlips(items: map<string, string>, largeCat: string)
    ensures var shown := BrowserStorage.IsMajorCatCollapsed(items, largeCat);
      BrowserStorage.IsMajorCatCollapsed(items[BrowserStorage.CollapseKey(largeCat) := BrowserStorage.BoolText(!shown)], largeCat)
        == !shown
  {
  }
}
