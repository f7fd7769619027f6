/**
 * The header summaries of the front-end (js/ui-common.js): each problem's
 * progress tier, the overall progress (problems, achievement points,
 * problems per tier), the reaction totals, the number of problems due for
 * review, and the exam countdown.
 *
 * Achievement points are kept in quarter points (one checked slot is a
 * quarter, an archived problem four quarters). A tier counter that was
 * never initialised becomes NaN when incremented, as `undefined++` does.
 */
module ProgressSummary {
  import opened Wrappers
  import opened ProblemData
  import Text
  import Review
  import Seqs

  /**
   * A tier-counter key: archived or not, a number of checks, and whether
   * it ends in `_CHECKS` (plural) or `_CHECK`. `KeyText` renders it;
   * distinct keys render to distinct strings (`KeyTextInjective`), so the
   * counters below, keyed by `TierKey`, are the source's counters keyed by
   * `KeyText`.
   */
  datatype TierKey = TierKey(archived: bool, checkCount: nat, plural: bool)

  function KeyText(k: TierKey): (r: string)
    ensures |r| > 0 && (r[|r| - 1] == 'S' <==> k.plural)
  {
    (if k.archived then "ARCHIVED_" else "NOT_ARCHIVED_") + Text.NatToString(k.checkCount) + (if k.plural then "_CHECKS" else "_CHECK")
  }

  /** Different keys have different texts. */
  lemma KeyTextInjective(a: TierKey, b: TierKey)
    requires KeyText(a) == KeyText(b)
    ensures a == b
  {
    var ta, tb := KeyText(a), KeyText(b);
    assert a.plural == b.plural by {
      assert ta[|ta| - 1] == tb[|tb| - 1];
    }
    var suffix := if a.plural then "_CHECKS" else "_CHECK";
    var pa := (if a.archived then "ARCHIVED_" else "NOT_ARCHIVED_");
    var pb := (if b.archived then "ARCHIVED_" else "NOT_ARCHIVED_");
    var na, nb := Text.NatToString(a.checkCount), Text.NatToString(b.checkCount);
    assert ta == (pa + na) + suffix && tb == (pb + nb) + suffix;
    assert pa + na == pb + nb by {
      assert pa + na == ta[..|ta| - |suffix|];
      assert pb + nb == tb[..|tb| - |suffix|];
    }
    assert a.archived == b.archived by {
      assert (pa + na)[0] == pa[0] && (pb + nb)[0] == pb[0];
    }
    assert na == nb by {
      assert na == (pa + na)[|pa|..];
      assert nb == (pb + nb)[|pb|..];
    }
    Text.NatToStringInjective(a.checkCount, b.checkCount);
  }

  /** `getProblemTier`: the key of the problem's tier, always in the plural form. */
  function ProblemTier(id: string, checks: CheckMap, archivedIds: seq<string>): (r: TierKey)
    ensures r.archived <==> id in archivedIds
    ensures r.checkCount == CheckedCountOf(checks, id)
    ensures r.plural
  {
    TierKey(id in archivedIds, CheckedCountOf(checks, id), true)
  }

  /** A tier counter: a number, or NaN after `undefined++`. */
  datatype TierCount = Num(n: nat) | NaN

  /**
   * The ten counters `renderTotalProgress` initialises: 0 to 4 checks,
   * archived or not, where the one-check keys are written `_1_CHECK`.
   */
  const InitialTiers: map<TierKey, TierCount> := map[
    TierKey(false, 0, true) := Num(0), TierKey(false, 1, false) := Num(0), TierKey(false, 2, true) := Num(0),
    TierKey(false, 3, true) := Num(0), TierKey(false, 4, true) := Num(0),
    TierKey(true, 0, true) := Num(0), TierKey(true, 1, false) := Num(0), TierKey(true, 2, true) := Num(0),
    TierKey(true, 3, true) := Num(0), TierKey(true, 4, true) := Num(0)]

  /** The initialised keys render as the source writes them. */
  lemma InitialKeyTexts()
    ensures KeyText(TierKey(false, 1, false)) == "NOT_ARCHIVED_1_CHECK"
    ensures KeyText(TierKey(true, 1, false)) == "ARCHIVED_1_CHECK"
    ensures KeyText(TierKey(false, 2, true)) == "NOT_ARCHIVED_2_CHECKS"
  {
    assert Text.NatToString(1) == "1" && Text.NatToString(2) == "2";
  }

  /** `tierCounts[tier]++`. */
  function Increment(tiers: map<TierKey, TierCount>, k: TierKey): (r: map<TierKey, TierCount>)
    ensures r.Keys == tiers.Keys + {k}
  {
    tiers[k := if k in tiers && tiers[k].Num? then Num(tiers[k].n + 1) else NaN]
  }

  /** The quarter points of one problem: 4 when archived, else its checked count. */
  function PointsOf(item: Item, checks: CheckMap, archivedIds: seq<string>): nat {
    var id := ProblemId(item.main);
    if id in archivedIds then 4 else CheckedCountOf(checks, id)
  }

  /** The tier of one problem. */
  function TierOf(item: Item, checks: CheckMap, archivedIds: seq<string>): TierKey {
    ProblemTier(ProblemId(item.main), checks, archivedIds)
  }

  /** The quarter points of each problem of a middle category. */
  function Points(items: seq<Item>, checks: CheckMap, archivedIds: seq<string>): (r: seq<nat>)
    ensures |r| == |items| && forall i :: 0 <= i < |items| ==> r[i] == PointsOf(items[i], checks, archivedIds)
  {
    seq(|items|, i requires 0 <= i < |items| => PointsOf(items[i], checks, archivedIds))
  }

  /** The tier of each problem of a middle category. */
  function TierKeys(items: seq<Item>, checks: CheckMap, archivedIds: seq<string>): (r: seq<TierKey>)
    ensures |r| == |items| && forall i :: 0 <= i < |items| ==> r[i] == TierOf(items[i], checks, archivedIds)
  {
    seq(|items|, i requires 0 <= i < |items| => TierOf(items[i], checks, archivedIds))
  }

  function Sum(xs: seq<nat>): nat {
    if |xs| == 0 then 0 else Sum(xs[..|xs| - 1]) + xs[|xs| - 1]
  }

  /** The tier counters after counting a list of tiers, starting from `init`. */
  function TiersFrom(init: map<TierKey, TierCount>, keys: seq<TierKey>): map<TierKey, TierCount> {
    if |keys| == 0 then init
    else Increment(TiersFrom(init, keys[..|keys| - 1]), keys[|keys| - 1])
  }

  /** The number of occurrences of `k` in a list of keys. */
  function NamedCount(keys: seq<TierKey>, k: TierKey): nat {
    if |keys| == 0 then 0
    else NamedCount(keys[..|keys| - 1], k) + (if keys[|keys| - 1] == k then 1 else 0)
  }

  /** `totalProblems`: the number of problems of all middle categories. */
  function TotalProblems(categories: seq<Category>): nat {
    if |categories| == 0 then 0 else TotalProblems(categories[..|categories| - 1]) + |categories[|categories| - 1].items|
  }

  /** `totalAchievementPoints`, in quarters, over all middle categories. */
  function QuarterPoints(categories: seq<Category>, checks: CheckMap, archivedIds: seq<string>): nat {
    if |categories| == 0 then 0
    else
      var n := |categories| - 1;
      QuarterPoints(categories[..n], checks, archivedIds) + Sum(Points(categories[n].items, checks, archivedIds))
  }

  /** The tier counters after counting all middle categories, starting from `init`. */
  function TiersWith(init: map<TierKey, TierCount>, categories: seq<Category>, checks: CheckMap, archivedIds: seq<string>): map<TierKey, TierCount> {
    if |categories| == 0 then init
    else
      var n := |categories| - 1;
      TiersFrom(TiersWith(init, categories[..n], checks, archivedIds), TierKeys(categories[n].items, checks, archivedIds))
  }

  /** `tierCounts` after counting all middle categories. */
  function Tiers(categories: seq<Category>, checks: CheckMap, archivedIds: seq<string>): map<TierKey, TierCount> {
    TiersWith(InitialTiers, categories, checks, archivedIds)
  }

  /** The number of problems of all middle categories in tier `k`. */
  function InTier(categories: seq<Category>, checks: CheckMap, archivedIds: seq<string>, k: TierKey): nat {
    if |categories| == 0 then 0
    else
      var n := |categories| - 1;
      InTier(categories[..n], checks, archivedIds, k) + NamedCount(TierKeys(categories[n].items, checks, archivedIds), k)
  }

  /** What `renderTotalProgress` computes and stores in `state`. */
  datatype Progress = Progress(totalProblems: nat, quarterPoints: nat, tiers: map<TierKey, TierCount>)

  lemma SumSnoc(xs: seq<nat>, j: nat)
    requires j < |xs|
    ensures Sum(xs[..j + 1]) == Sum(xs[..j]) + xs[j]
  {
    assert xs[..j + 1][..j] == xs[..j];
  }

  lemma TiersFromSnoc(init: map<TierKey, TierCount>, keys: seq<TierKey>, j: nat)
    requires j < |keys|
    ensures TiersFrom(init, keys[..j + 1]) == Increment(TiersFrom(init, keys[..j]), keys[j])
  {
    assert keys[..j + 1][..j] == keys[..j];
  }

  /** The inner loop of `renderTotalProgress`: one middle category added to the points and counters so far. */
  method CountCategory(points0: nat, tiers0: map<TierKey, TierCount>, items: seq<Item>, checks: CheckMap, archivedIds: seq<string>)
    returns (points: nat, tiers: map<TierKey, TierCount>)
    ensures points == points0 + Sum(Points(items, checks, archivedIds))
    ensures tiers == TiersFrom(tiers0, TierKeys(items, checks, archivedIds))
  {
    ghost var xs := Points(items, checks, archivedIds);
    ghost var keys := TierKeys(items, checks, archivedIds);
    points, tiers := points0, tiers0;
    var j := 0;
    while j < |items|
      invariant j <= |items|
      invariant points == points0 + Sum(xs[..j])
      invariant tiers == TiersFrom(tiers0, keys[..j])
    {
      SumSnoc(xs, j);
      TiersFromSnoc(tiers0, keys, j);
      var problemId := ProblemId(items[j].main);
      var tier := ProblemTier(problemId, checks, archivedIds);
      points := points + (if problemId in archivedIds then 4 else CheckedCountOf(checks, problemId));
      tiers := Increment(tiers, tier);
      j := j + 1;
    }
    assert xs[..j] == xs && keys[..j] == keys;
  }

  /**
   * The loop of `renderTotalProgress` over the middle categories, with the
   * tier counters starting from `init`.
   */
  method CountProgress(categories: seq<Category>, checks: CheckMap, archivedIds: seq<string>, init: map<TierKey, TierCount>)
    returns (p: Progress)
    ensures p.totalProblems == TotalProblems(categories)
    ensures p.quarterPoints == QuarterPoints(categories, checks, archivedIds)
    ensures p.tiers == TiersWith(init, categories, checks, archivedIds)
  {
    var total: nat, points: nat, tiers := 0, 0, init;
    var c := 0;
    while c < |categories|
      invariant c <= |categories|
      invariant total == TotalProblems(categories[..c])
      invariant points == QuarterPoints(categories[..c], checks, archivedIds)
      invariant tiers == TiersWith(init, categories[..c], checks, archivedIds)
    {
      Seqs.PrefixStep(categories, c);
      var items := categories[c].items;
      total := total + |items|;
      points, tiers := CountCategory(points, tiers, items, checks, archivedIds);
      c := c + 1;
    }
    Seqs.PrefixWhole(categories);
    p := Progress(total, points, tiers);
  }

  /**
   * `renderTotalProgress`: the number of problems, the achievement points
   * and the problems per tier, over every problem of every middle category.
   * The counters start from the ten keys the source initialises
   * (`InitialTiers`, with the singular one-check keys), so `TiersSpec`,
   * `OneCheckCountersStayZero` and `OneCheckMakesNaN` describe its result.
   */
  method RenderTotalProgress(categories: seq<Category>, checks: CheckMap, archivedIds: seq<string>) returns (p: Progress)
    ensures p.totalProblems == TotalProblems(categories)
    ensures p.quarterPoints == QuarterPoints(categories, checks, archivedIds)
    ensures p.tiers == Tiers(categories, checks, archivedIds)
  {
    p := CountProgress(categories, checks, archivedIds, InitialTiers);
  }

  /** A counter that starts as a number goes up by exactly the occurrences of its key. */
  lemma {:induction false} TiersFromNum(init: map<TierKey, TierCount>, keys: seq<TierKey>, k: TierKey)
    requires k in init && init[k].Num?
    ensures k in TiersFrom(init, keys) && TiersFrom(init, keys)[k] == Num(init[k].n + NamedCount(keys, k))
  {
    if |keys| > 0 {
      TiersFromNum(init, keys[..|keys| - 1], k);
    }
  }

  /** A key that does not occur keeps its start, present or absent. */
  lemma {:induction false} TiersFromUntouched(init: map<TierKey, TierCount>, keys: seq<TierKey>, k: TierKey)
    requires NamedCount(keys, k) == 0
    ensures k in TiersFrom(init, keys) <==> k in init
    ensures k in init ==> TiersFrom(init, keys)[k] == init[k]
  {
    if |keys| > 0 {
      TiersFromUntouched(init, keys[..|keys| - 1], k);
    }
  }

  /** A counter that does not start as a number is NaN once its key occurs. */
  lemma {:induction false} TiersFromNaN(init: map<TierKey, TierCount>, keys: seq<TierKey>, k: TierKey)
    requires !(k in init && init[k].Num?) && NamedCount(keys, k) > 0
    ensures k in TiersFrom(init, keys) && TiersFrom(init, keys)[k] == NaN
  {
    var n := |keys| - 1;
    if NamedCount(keys[..n], k) > 0 {
      TiersFromNaN(init, keys[..n], k);
    } else {
      TiersFromUntouched(init, keys[..n], k);
    }
  }

  /** Every counter that starts at 0 counts its tier; any other key is NaN once used, and absent otherwise. */
  lemma {:induction false} TiersWithSpec(init: map<TierKey, TierCount>, categories: seq<Category>, checks: CheckMap, archivedIds: seq<string>, k: TierKey)
    requires forall j :: j in init ==> init[j] == Num(0)
    ensures k in init ==> k in TiersWith(init, categories, checks, archivedIds) && TiersWith(init, categories, checks, archivedIds)[k] == Num(InTier(categories, checks, archivedIds, k))
    ensures k !in init && InTier(categories, checks, archivedIds, k) > 0 ==> k in TiersWith(init, categories, checks, archivedIds) && TiersWith(init, categories, checks, archivedIds)[k] == NaN
    ensures k !in init && InTier(categories, checks, archivedIds, k) == 0 ==> k !in TiersWith(init, categories, checks, archivedIds)
  {
    if |categories| > 0 {
      var n := |categories| - 1;
      var prev := TiersWith(init, categories[..n], checks, archivedIds);
      var keys := TierKeys(categories[n].items, checks, archivedIds);
      TiersWithSpec(init, categories[..n], checks, archivedIds, k);
      if k in init {
        TiersFromNum(prev, keys, k);
      } else if NamedCount(keys, k) > 0 {
        TiersFromNaN(prev, keys, k);
      } else {
        TiersFromUntouched(prev, keys, k);
      }
    }
  }

  /**
   * The counters of `renderTotalProgress`: an initialised key counts
   * exactly the problems in that tier; any other key is NaN once some
   * problem falls in it, and absent otherwise.
   */
  lemma TiersSpec(categories: seq<Category>, checks: CheckMap, archivedIds: seq<string>, k: TierKey)
    ensures k in InitialTiers ==> k in Tiers(categories, checks, archivedIds) && Tiers(categories, checks, archivedIds)[k] == Num(InTier(categories, checks, archivedIds, k))
    ensures k !in InitialTiers && InTier(categories, checks, archivedIds, k) > 0 ==> k in Tiers(categories, checks, archivedIds) && Tiers(categories, checks, archivedIds)[k] == NaN
    ensures k !in InitialTiers && InTier(categories, checks, archivedIds, k) == 0 ==> k !in Tiers(categories, checks, archivedIds)
  {
    TiersWithSpec(InitialTiers, categories, checks, archivedIds, k);
  }

  /** In a list of plural keys, a singular key such as `..._1_CHECK` never occurs. */
  lemma {:induction false} NoTierNamed(keys: seq<TierKey>, k: TierKey)
    requires forall i :: 0 <= i < |keys| ==> keys[i].plural
    requires !k.plural
    ensures NamedCount(keys, k) == 0
  {
    if |keys| > 0 {
      NoTierNamed(keys[..|keys| - 1], k);
    }
  }

  /** No problem is in a tier with a singular key. */
  lemma {:induction false} NoSingularTier(categories: seq<Category>, checks: CheckMap, archivedIds: seq<string>, k: TierKey)
    requires !k.plural
    ensures InTier(categories, checks, archivedIds, k) == 0
  {
    if |categories| > 0 {
      var n := |categories| - 1;
      NoSingularTier(categories[..n], checks, archivedIds, k);
      NoTierNamed(TierKeys(categories[n].items, checks, archivedIds), k);
    }
  }

  /**
   * The initialised one-check counters stay 0 whatever the data: a problem
   * with one checked slot is counted under the plural `..._1_CHECKS` key,
   * which was never initialised.
   */
  lemma OneCheckCountersStayZero(categories: seq<Category>, checks: CheckMap, archivedIds: seq<string>, archived: bool)
    ensures TierKey(archived, 1, false) in Tiers(categories, checks, archivedIds)
    ensures Tiers(categories, checks, archivedIds)[TierKey(archived, 1, false)] == Num(0)
  {
    TiersSpec(categories, checks, archivedIds, TierKey(archived, 1, false));
    NoSingularTier(categories, checks, archivedIds, TierKey(archived, 1, false));
  }

  lemma {:induction false} NamedCountPositive(keys: seq<TierKey>, k: TierKey, i: nat)
    requires i < |keys| && keys[i] == k
    ensures NamedCount(keys, k) > 0
  {
    var n := |keys| - 1;
    if i < n {
      assert keys[..n][i] == k;
      NamedCountPositive(keys[..n], k, i);
    }
  }

  lemma {:induction false} InTierPositive(categories: seq<Category>, checks: CheckMap, archivedIds: seq<string>, c: nat, i: nat)
    requires c < |categories| && i < |categories[c].items|
    ensures InTier(categories, checks, archivedIds, TierOf(categories[c].items[i], checks, archivedIds)) > 0
  {
    var n := |categories| - 1;
    var k := TierOf(categories[c].items[i], checks, archivedIds);
    if c < n {
      assert categories[..n][c] == categories[c];
      InTierPositive(categories[..n], checks, archivedIds, c, i);
    } else {
      NamedCountPositive(TierKeys(categories[n].items, checks, archivedIds), k, i);
    }
  }

  /**
   * A problem with one checked slot makes the `..._1_CHECKS` counter NaN:
   * that key was never initialised, and `undefined + 1` is NaN.
   */
  lemma OneCheckMakesNaN(categories: seq<Category>, checks: CheckMap, archivedIds: seq<string>, c: nat, i: nat)
    requires c < |categories| && i < |categories[c].items|
    requires CheckedCountOf(checks, ProblemId(categories[c].items[i].main)) == 1
    ensures var k := TierKey(ProblemId(categories[c].items[i].main) in archivedIds, 1, true);
      k in Tiers(categories, checks, archivedIds) && Tiers(categories, checks, archivedIds)[k] == NaN
  {
    var k := TierOf(categories[c].items[i], checks, archivedIds);
    InTierPositive(categories, checks, archivedIds, c, i);
    assert k !in InitialTiers;
    TiersSpec(categories, checks, archivedIds, k);
  }

  /**
   * The ten counters `renderTotalProgress` evidently means to initialise:
   * one per tier key `getProblemTier` can return for an entry of at most
   * four slots, the one-check keys included in the `_1_CHECKS` form.
   */
  const IntendedTiers: map<TierKey, TierCount> := map[
    TierKey(false, 0, true) := Num(0), TierKey(false, 1, true) := Num(0), TierKey(false, 2, true) := Num(0),
    TierKey(false, 3, true) := Num(0), TierKey(false, 4, true) := Num(0),
    TierKey(true, 0, true) := Num(0), TierKey(true, 1, true) := Num(0), TierKey(true, 2, true) := Num(0),
    TierKey(true, 3, true) := Num(0), TierKey(true, 4, true) := Num(0)]

  /** The tier counters when they start from `IntendedTiers`. */
  function IntendedTierCounts(categories: seq<Category>, checks: CheckMap, archivedIds: seq<string>): map<TierKey, TierCount> {
    TiersWith(IntendedTiers, categories, checks, archivedIds)
  }

  lemma {:induction false} KeyNotNamed(keys: seq<TierKey>, k: TierKey)
    requires forall i :: 0 <= i < |keys| ==> keys[i] != k
    ensures NamedCount(keys, k) == 0
  {
    if |keys| > 0 {
      KeyNotNamed(keys[..|keys| - 1], k);
    }
  }

  /** A key that is no problem's tier counts no problem. */
  lemma {:induction false} InTierNone(categories: seq<Category>, checks: CheckMap, archivedIds: seq<string>, k: TierKey)
    requires forall c, i :: 0 <= c < |categories| && 0 <= i < |categories[c].items| ==> TierOf(categories[c].items[i], checks, archivedIds) != k
    ensures InTier(categories, checks, archivedIds, k) == 0
  {
    if |categories| > 0 {
      var n := |categories| - 1;
      forall c, i | 0 <= c < n && 0 <= i < |categories[..n][c].items|
        ensures TierOf(categories[..n][c].items[i], checks, archivedIds) != k
      {
        assert categories[..n][c] == categories[c];
      }
      InTierNone(categories[..n], checks, archivedIds, k);
      KeyNotNamed(TierKeys(categories[n].items, checks, archivedIds), k);
    }
  }

  /**
   * With the intended initial counters, every counter of a tier counts
   * exactly the problems in it and no other key ever appears, so no
   * counter becomes NaN (every entry has at most four slots, as the
   * front-end writes them).
   */
  lemma IntendedTiersExact(categories: seq<Category>, checks: CheckMap, archivedIds: seq<string>, k: TierKey)
    requires forall id :: id in checks ==> |checks[id]| <= 4
    ensures k in IntendedTiers ==>
              k in IntendedTierCounts(categories, checks, archivedIds)
              && IntendedTierCounts(categories, checks, archivedIds)[k] == Num(InTier(categories, checks, archivedIds, k))
    ensures k !in IntendedTiers ==> k !in IntendedTierCounts(categories, checks, archivedIds)
  {
    if k !in IntendedTiers {
      forall c, i | 0 <= c < |categories| && 0 <= i < |categories[c].items|
        ensures TierOf(categories[c].items[i], checks, archivedIds) != k
      {
        var id := ProblemId(categories[c].items[i].main);
        assert CheckedCountOf(checks, id) <= 4;
      }
      InTierNone(categories, checks, archivedIds, k);
    }
    TiersWithSpec(IntendedTiers, categories, checks, archivedIds, k);
  }

  /** A problem with one checked slot is counted under the intended one-check counter. */
  lemma OneCheckCounted(categories: seq<Category>, checks: CheckMap, archivedIds: seq<string>, c: nat, i: nat)
    requires forall id :: id in checks ==> |checks[id]| <= 4
    requires c < |categories| && i < |categories[c].items|
    requires CheckedCountOf(checks, ProblemId(categories[c].items[i].main)) == 1
    ensures var k := TierKey(ProblemId(categories[c].items[i].main) in archivedIds, 1, true);
      k in IntendedTierCounts(categories, checks, archivedIds)
      && IntendedTierCounts(categories, checks, archivedIds)[k].Num?
      && IntendedTierCounts(categories, checks, archivedIds)[k].n > 0
  {
    var k := TierOf(categories[c].items[i], checks, archivedIds);
    InTierPositive(categories, checks, archivedIds, c, i);
    IntendedTiersExact(categories, checks, archivedIds, k);
  }

  lemma {:induction false} SumAtMostFour(xs: seq<nat>)
    requires forall i :: 0 <= i < |xs| ==> xs[i] <= 4
    ensures Sum(xs) <= 4 * |xs|
  {
    if |xs| > 0 {
      SumAtMostFour(xs[..|xs| - 1]);
    }
  }

  /** With at most 4 slots per problem, the points are at most four quarters per problem. */
  lemma {:induction false} QuarterPointsBound(categories: seq<Category>, checks: CheckMap, archivedIds: seq<string>)
    requires forall k :: k in checks ==> |checks[k]| <= 4
    ensures QuarterPoints(categories, checks, archivedIds) <= 4 * TotalProblems(categories)
  {
    if |categories| > 0 {
      var n := |categories| - 1;
      QuarterPointsBound(categories[..n], checks, archivedIds);
      SumAtMostFour(Points(categories[n].items, checks, archivedIds));
    }
  }

  lemma RatioBound(x: real, y: real)
    requires 0.0 <= x && 0.0 < y
    ensures 0.0 <= x / y
    ensures x <= y ==> x / y <= 1.0
  {
    assert x / y * y == x;
  }

  /** `totalAchievementPercentage`: 0 without problems. */
  function AchievementPercentage(p: Progress): (r: real)
    ensures p.totalProblems == 0 ==> r == 0.0
    ensures r >= 0.0
    ensures p.quarterPoints <= 4 * p.totalProblems ==> r <= 100.0
  {
    if p.totalProblems > 0 then
      var share := p.quarterPoints as real / 4.0;
      RatioBound(share, p.totalProblems as real);
      share / p.totalProblems as real * 100.0
    else 0.0
  }

  /** The sum of the values of a count map (`Object.values(...).reduce(+, 0)`). */
  ghost function SumValues(counts: Counts): int
    decreases |counts|
  {
    if counts == map[] then 0
    else
      var k :| k in counts;
      counts[k] + SumValues(counts - {k})
  }

  /** The sum does not depend on which key is taken first. */
  lemma {:induction false} SumValuesRemove(counts: Counts, k: string)
    requires k in counts
    ensures SumValues(counts) == counts[k] + SumValues(counts - {k})
    decreases |counts|
  {
    var j :| j in counts && SumValues(counts) == counts[j] + SumValues(counts - {j});
    if j != k {
      SumValuesRemove(counts - {j}, k);
      SumValuesRemove(counts - {k}, j);
      assert counts - {j} - {k} == counts - {k} - {j};
    }
  }

  /** Adding one reaction to a problem raises the total of that map by one. */
  lemma SumValuesBump(counts: Counts, k: string)
    ensures SumValues(Bumped(counts, k)) == SumValues(counts) + 1
  {
    var bumped := Bumped(counts, k);
    SumValuesRemove(bumped, k);
    assert bumped - {k} == counts - {k};
    if k in counts {
      SumValuesRemove(counts, k);
    } else {
      assert counts - {k} == counts;
    }
  }

  /** `renderTotalReactions`: the oshi, like and fear totals. */
  ghost function ReactionTotals(oshi: Counts, like: Counts, fear: Counts): (r: (int, int, int))
    ensures r.0 == SumValues(oshi) && r.1 == SumValues(like) && r.2 == SumValues(fear)
  {
    (SumValues(oshi), SumValues(like), SumValues(fear))
  }

  /** One more reaction of one kind raises that total by one and leaves the other two. */
  lemma ReactionTotalsBump(oshi: Counts, like: Counts, fear: Counts, k: string)
    ensures var before := ReactionTotals(oshi, like, fear);
      && ReactionTotals(Bumped(oshi, k), like, fear) == (before.0 + 1, before.1, before.2)
      && ReactionTotals(oshi, Bumped(like, k), fear) == (before.0, before.1 + 1, before.2)
      && ReactionTotals(oshi, like, Bumped(fear, k)) == (before.0, before.1, before.2 + 1)
  {
    SumValuesBump(oshi, k);
    SumValuesBump(like, k);
    SumValuesBump(fear, k);
  }

  /** Whether each problem of a middle category is due for review. */
  function DueFlags(items: seq<Item>, checks: CheckMap, now: int): (r: seq<bool>)
    ensures |r| == |items| && forall i :: 0 <= i < |items| ==> r[i] == Review.Highlighted(checks, ProblemId(items[i].main), now)
  {
    seq(|items|, i requires 0 <= i < |items| => Review.Highlighted(checks, ProblemId(items[i].main), now))
  }

  /** The number of `true` flags of a list. */
  function CountTrue(flags: seq<bool>): (r: nat)
    ensures r <= |flags|
  {
    if |flags| == 0 then 0 else CountTrue(flags[..|flags| - 1]) + (if flags[|flags| - 1] then 1 else 0)
  }

  lemma {:induction false} CountTrueZero(flags: seq<bool>)
    ensures CountTrue(flags) == 0 <==> forall i :: 0 <= i < |flags| ==> !flags[i]
  {
    if |flags| > 0 {
      var n := |flags| - 1;
      CountTrueZero(flags[..n]);
      assert forall i :: 0 <= i < n ==> flags[..n][i] == flags[i];
    }
  }

  /** `totalReviewCount`: the number of due problems over all middle categories. */
  function ReviewCount(categories: seq<Category>, checks: CheckMap, now: int): nat {
    if |categories| == 0 then 0
    else
      var n := |categories| - 1;
      ReviewCount(categories[..n], checks, now) + CountTrue(DueFlags(categories[n].items, checks, now))
  }

  lemma CountTrueSnoc(flags: seq<bool>, j: nat)
    requires j < |flags|
    ensures CountTrue(flags[..j + 1]) == CountTrue(flags[..j]) + (if flags[j] then 1 else 0)
  {
    assert flags[..j + 1][..j] == flags[..j];
  }

  /** The inner loop of `renderTotalReviewCount`: the due problems of one middle category added to the count so far. */
  method CountDue(total0: nat, items: seq<Item>, checks: CheckMap, now: int) returns (total: nat)
    ensures total == total0 + CountTrue(DueFlags(items, checks, now))
  {
    ghost var flags := DueFlags(items, checks, now);
    total := total0;
    var j := 0;
    while j < |items|
      invariant j <= |items|
      invariant total == total0 + CountTrue(flags[..j])
    {
      CountTrueSnoc(flags, j);
      var due := Review.ShouldHighlight(ProblemId(items[j].main), checks, now);
      assert due == flags[j];
      if due {
        total := total + 1;
      }
      j := j + 1;
    }
    assert flags[..j] == flags;
  }

  /** `renderTotalReviewCount`: the number of problems due for review. */
  method RenderTotalReviewCount(categories: seq<Category>, checks: CheckMap, now: int) returns (total: nat)
    ensures total == ReviewCount(categories, checks, now)
  {
    total := 0;
    var c := 0;
    while c < |categories|
      invariant c <= |categories|
      invariant total == ReviewCount(categories[..c], checks, now)
    {
      assert categories[..c + 1][..c] == categories[..c];
      total := CountDue(total, categories[c].items, checks, now);
      c := c + 1;
    }
    assert categories[..c] == categories;
  }

  /** Whether no problem of any middle category is due. */
  predicate NoneDue(categories: seq<Category>, checks: CheckMap, now: int) {
    forall c, i :: 0 <= c < |categories| && 0 <= i < |categories[c].items| ==>
      !Review.Highlighted(checks, ProblemId(categories[c].items[i].main), now)
  }

  /**
   * The review count is at most the number of problems, and 0 exactly
   * when no problem is due (the 😊 case).
   */
  lemma {:induction false} ReviewCountSpec(categories: seq<Category>, checks: CheckMap, now: int)
    ensures ReviewCount(categories, checks, now) <= TotalProblems(categories)
    ensures ReviewCount(categories, checks, now) == 0 <==> NoneDue(categories, checks, now)
  {
    if |categories| > 0 {
      var n := |categories| - 1;
      var items := categories[n].items;
      ReviewCountSpec(categories[..n], checks, now);
      CountTrueZero(DueFlags(items, checks, now));
      assert forall c :: 0 <= c < n ==> categories[..n][c] == categories[c];
      if NoneDue(categories, checks, now) {
        assert NoneDue(categories[..n], checks, now);
      }
      if ReviewCount(categories, checks, now) == 0 {
        forall c, i | 0 <= c < |categories| && 0 <= i < |categories[c].items|
          ensures !Review.Highlighted(checks, ProblemId(categories[c].items[i].main), now)
        {
          if c == n {
            assert !DueFlags(items, checks, now)[i];
          }
        }
      }
    }
  }

  const DayMs: nat := 1000 * 60 * 60 * 24

  /** `Math.ceil(x / d)` for a positive divisor. */
  function CeilDiv(x: int, d: nat): (r: int)
    requires d > 0
    ensures d * (r - 1) < x <= d * r
  {
    -((-x) / d)
  }

  /** What the countdown element shows. */
  datatype Countdown = Hidden | DaysLeft(days: int) | ExamDay | DaysPassed(days: int)

  /**
   * `renderExamCountdown`: hidden without an exam date; otherwise the days
   * to the exam rounded up, shown as days left, exam day, or days passed.
   * `diffTime` is the exam date minus today, both at midnight, in ms.
   */
  function ExamCountdown(examDate: Option<string>, diffTime: int): (r: Countdown)
    ensures examDate.None? || examDate.value == "" ==> r == Hidden
    ensures examDate.Some? && examDate.value != "" ==>
              (diffTime > 0 <==> r.DaysLeft?)
              && (-(DayMs as int) < diffTime <= 0 <==> r == ExamDay)
              && (diffTime <= -(DayMs as int) <==> r.DaysPassed?)
    ensures r.DaysLeft? ==> r.days > 0 && r.days == CeilDiv(diffTime, DayMs)
    ensures r.DaysPassed? ==> r.days > 0 && r.days == -CeilDiv(diffTime, DayMs)
  {
    if examDate.None? || examDate.value == "" then Hidden
    else
      var diffDays := CeilDiv(diffTime, DayMs);
      if diffDays > 0 then DaysLeft(diffDays)
      else if diffDays == 0 then ExamDay
      else DaysPassed(if diffDays < 0 then -diffDays else diffDays)
  }
}
