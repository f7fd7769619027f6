/**
 * The data the browser front-end works on: the similarity results loaded
 * from the HTML stage (middle categories of problems, each with its
 * similar problems), and the learner's check state kept per problem id.
 *
 * A check array entry is what the stored JSON may hold: a slot object
 * `{checked, timestamp}`, a legacy boolean from the old format, or null.
 * Timestamps are integer milliseconds.
 */
module ProblemData {
  import opened Wrappers
  import Text

  /** One check slot; only the truthiness of `checked` is ever read. */
  datatype Slot = Slot(checked: bool, timestamp: Option<int>)

  /** One element of a stored check array. */
  datatype Cell = SlotCell(slot: Slot) | Flag(flag: bool) | Null

  /** `state.problemChecks`: problem id to its check array. */
  type CheckMap = map<string, seq<Cell>>

  /** `c && c.checked`: a slot object whose `checked` is set. */
  predicate IsChecked(c: Cell) {
    c.SlotCell? && c.slot.checked
  }

  /** `checks.filter(c => c && c.checked).length`. */
  function CheckedCount(cells: seq<Cell>): (r: nat)
    ensures r <= |cells|
    ensures r == 0 <==> forall i :: 0 <= i < |cells| ==> !IsChecked(cells[i])
  {
    if |cells| == 0 then 0
    else CheckedCount(cells[..|cells| - 1]) + (if IsChecked(cells[|cells| - 1]) then 1 else 0)
  }

  /** The checked count of a problem, 0 when it has no entry. */
  function CheckedCountOf(checks: CheckMap, id: string): (r: nat)
    ensures id !in checks ==> r == 0
  {
    if id in checks then CheckedCount(checks[id]) else 0
  }

  /**
   * A problem as the front-end sees it: 出典 (source), 問題番号 (number),
   * 問題名 (name), 大項目 (large category) and the 中分類 field, which the
   * producer never emits (None when absent).
   */
  datatype Problem = Problem(source: string, number: int, name: string, large: string, subCategory: Option<string>)

  datatype Similar = Similar(similarity: real, data: Problem)

  /** One entry of a middle category: the problem and its similar problems. */
  datatype Item = Item(main: Problem, similar: seq<Similar>)

  /** A middle category and its entries, in the order of the results file. */
  datatype Category = Category(name: string, items: seq<Item>)

  /** How a template string prints the integer 問題番号. */
  const NumberText: int -> string := Text.IntToString

  /** `${出典}-${問題番号}`: the key of a problem in every per-problem map. */
  function ProblemId(p: Problem): string {
    p.source + "-" + NumberText(p.number)
  }

  /** A reaction-count map (`oshiCounts`, `likeCounts`, `fearCounts`). */
  type Counts = map<string, int>

  /** `counts[k] || 0`. */
  function CountOr0(counts: Counts, k: string): int {
    if k in counts then counts[k] else 0
  }

  /** `counts[k] = (counts[k] || 0) + 1`: one more reaction for k, the others as they were. */
  function Bumped(counts: Counts, k: string): (r: Counts)
    ensures r.Keys == counts.Keys + {k}
    ensures CountOr0(r, k) == CountOr0(counts, k) + 1
    ensures forall j :: j != k ==> CountOr0(r, j) == CountOr0(counts, j)
  {
    counts[k := CountOr0(counts, k) + 1]
  }
}
