/**
 * The review-interval rule of the front-end (js/utils.js): a problem is
 * due for review when the time since its most recent check exceeds the
 * interval of that check's stage (1 hour, 1 day, 6 days; the fourth stage
 * is never due), and it is untouched when none of its slots is checked.
 */
module Review {
  import opened Wrappers
  import opened ProblemData

  const Hour: nat := 60 * 60 * 1000
  const Day: nat := 24 * Hour

  /**
   * `reviewIntervals[i]`: the waiting time after a check in slot `i`.
   * Slot 3 waits forever (Infinity) and later slots have no interval
   * (`undefined`); neither is ever exceeded.
   */
  function Interval(i: nat): (r: Option<nat>)
    ensures r.Some? <==> i < 3
  {
    if i == 0 then Some(Hour)
    else if i == 1 then Some(Day)
    else if i == 2 then Some(6 * Day)
    else None
  }

  /** The highest index holding a checked slot, or -1. */
  function LastChecked(cells: seq<Cell>): (r: int)
    ensures -1 <= r < |cells|
    ensures r >= 0 ==> IsChecked(cells[r])
    ensures forall j :: r < j < |cells| ==> !IsChecked(cells[j])
  {
    if |cells| == 0 then -1
    else if IsChecked(cells[|cells| - 1]) then |cells| - 1
    else LastChecked(cells[..|cells| - 1])
  }

  /** `now - lastCheck.timestamp`, where a null timestamp counts as 0. */
  function Elapsed(c: Cell, now: int): int
    requires c.SlotCell?
  {
    now - c.slot.timestamp.GetOr(0)
  }

  /** `shouldHighlightProblem` as a predicate on the check map. */
  predicate Highlighted(checks: CheckMap, id: string, now: int) {
    id in checks &&
    var k := LastChecked(checks[id]);
    k >= 0 && Interval(k).Some? && Elapsed(checks[id][k], now) > Interval(k).value
  }

  /**
   * `shouldHighlightProblem`: scans the check array from the end for the
   * last checked slot and compares the time since it with that slot's
   * interval.
   */
  method ShouldHighlight(id: string, checks: CheckMap, now: int) returns (highlight: bool)
    ensures highlight == Highlighted(checks, id, now)
  {
    if id !in checks {
      return false;
    }
    var cells := checks[id];
    var lastCheckedIndex := -1;
    var i := |cells| - 1;
    while i >= 0
      invariant -1 <= i < |cells| && lastCheckedIndex == -1
      invariant forall j :: i < j < |cells| ==> !IsChecked(cells[j])
      decreases i + 1
    {
      if IsChecked(cells[i]) {
        lastCheckedIndex := i;
        break;
      }
      i := i - 1;
    }
    LastCheckedUnique(cells, lastCheckedIndex);
    if lastCheckedIndex == -1 {
      return false;
    }
    var interval := Interval(lastCheckedIndex);
    highlight := interval.Some? && Elapsed(cells[lastCheckedIndex], now) > interval.value;
  }

  /** The last-checked index is the only index with its two defining properties. */
  lemma LastCheckedUnique(cells: seq<Cell>, k: int)
    requires -1 <= k < |cells|
    requires k >= 0 ==> IsChecked(cells[k])
    requires forall j :: k < j < |cells| ==> !IsChecked(cells[j])
    ensures LastChecked(cells) == k
  {
  }

  /** `isProblemUntouched`: no entry, or no checked slot in it. */
  predicate Untouched(checks: CheckMap, id: string) {
    id !in checks || forall i :: 0 <= i < |checks[id]| ==> !IsChecked(checks[id][i])
  }

  /** `isProblemUntouched` on an entry of a middle category. */
  function IsProblemUntouched(item: Item, checks: CheckMap): (r: bool)
    ensures r <==> ProblemId(item.main) !in checks || LastChecked(checks[ProblemId(item.main)]) == -1
    ensures r <==> CheckedCountOf(checks, ProblemId(item.main)) == 0
  {
    Untouched(checks, ProblemId(item.main))
  }

  /** A problem without an entry, or with no checked slot, is never due. */
  lemma UntouchedNeverHighlighted(checks: CheckMap, id: string, now: int)
    requires Untouched(checks, id)
    ensures !Highlighted(checks, id, now)
  {
    if id in checks {
      LastCheckedUnique(checks[id], -1);
    }
  }

  /** A problem whose last checked slot is the fourth (or later) is never due. */
  lemma FourthStageNeverHighlighted(checks: CheckMap, id: string, now: int)
    requires id in checks && LastChecked(checks[id]) >= 3
    ensures !Highlighted(checks, id, now)
  {
  }

  /**
   * The three due rules: after a check in slot 0, 1 or 2 the problem is due
   * exactly when more than 1 hour, 1 day or 6 days have passed.
   */
  lemma DueAfterInterval(checks: CheckMap, id: string, now: int)
    requires id in checks && 0 <= LastChecked(checks[id]) < 3
    ensures var k := LastChecked(checks[id]);
      var elapsed := Elapsed(checks[id][k], now);
      && (k == 0 ==> (Highlighted(checks, id, now) <==> elapsed > 3600000))
      && (k == 1 ==> (Highlighted(checks, id, now) <==> elapsed > 86400000))
      && (k == 2 ==> (Highlighted(checks, id, now) <==> elapsed > 518400000))
  {
  }

  /**
   * A single first check made at time t is due 61 minutes later, and not
   * yet one hour after it.
   */
  lemma FirstCheckDueAfterAnHour(id: string, t: int)
    ensures var unchecked := SlotCell(Slot(false, None));
      var checks := map[id := [SlotCell(Slot(true, Some(t))), unchecked, unchecked, unchecked]];
      && Highlighted(checks, id, t + 61 * 60 * 1000)
      && !Highlighted(checks, id, t + 60 * 60 * 1000)
  {
    var unchecked := SlotCell(Slot(false, None));
    var cells := [SlotCell(Slot(true, Some(t))), unchecked, unchecked, unchecked];
    LastCheckedUnique(cells, 0);
  }
}
