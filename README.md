# oyo similar-question finder, modelled in Dafny

The oyo similar-question finder helps a learner study for the Japanese
Applied Information Technology Engineer exam. It is made of three parts:

- **The Python pipeline.**
  - `02_vectorize` embeds every past exam problem with one or more embedding models. It writes the vectors back into the problem table in checkpointed batches.
  - `03_html_output` groups the problems by middle category (中分類). For each problem it keeps the five most similar others, plus any more at 0.9 or above. It writes one results file per model and a manifest of the models that succeeded. It can also embed a data script into the page template.
- **The browser front-end (`js/`).**
  - It loads a results file and keeps only similar problems of the same middle category.
  - It counts how often each problem is referenced.
  - It tracks the learner's four check slots per problem, with timestamps, and reaction counts, all in `localStorage`.
  - It decides which problems are due for review: 1 hour, 1 day or 6 days after the last check.
  - It renders progress per large category (大項目) and middle category, and a sortable and filterable problem list.
- **A Google Apps Script backend (`gas/Code.js`).**
  - Users register and log in; passwords are stored as a SHA-256 hex digest.
  - Access tokens last an hour and refresh tokens 60 days.
  - Each user's data is saved and loaded as one JSON blob with optimistic versioning.
  - A user's rows can be cleared.

Each Dafny module follows one source file:

| module (file) | source |
|---|---|
| `VectorBuilder` (vector_builder.dfy) | 02_vectorize/main.py |
| `BulkVectorize` (bulk_vectorize.dfy) | 02_vectorize/vectorize.py |
| `SimilarityGraph` (similarity_graph.dfy) | 03_html_output/main.py |
| `ModelManifest` (model_manifest.dfy) | 03_html_output/batch_generate.py |
| `HtmlEmbed` (html_embed.dfy) | 03_html_output/generate_html.py |
| `ProblemData` (problem_data.dfy) | the data shapes the js/ files share |
| `Review` (review.dfy) | js/utils.js |
| `FrontState` (front_state.dfy) | js/state.js |
| `BrowserStorage` (browser_storage.dfy) | js/storage.js |
| `ReferenceCounts` (reference_counts.dfy) | js/api.js |
| `ProgressSummary` (progress_summary.dfy) | js/ui-common.js |
| `DetailView` (detail_view.dfy) | js/ui-detail.js |
| `CategoryIndex` (category_index.dfy) | js/ui-index.js |
| `GasBackend` (gas_backend.dfy) | gas/Code.js |
| `Text`, `Seqs`, `Wrappers` | the string, list and option operations of Python and JavaScript that the modules use |

The model takes the source's own form:

- **Step-by-step code becomes methods.**
  - Batch loops, row scans, counters and in-place map rewrites become methods with loops.
  - Each method is proved against a specification function.
  - The properties are then proved of that function.
- **Pure code becomes functions and lemmas.**
  - Comparators, filters, tiers and the key-value readers become functions.
  - Lemmas state what these promise.
- **Objects become classes.**
  - The browser's `localStorage` is a class (`BrowserStorage.Storage`).
  - So is the front-end `state` object (`FrontState.AppState`), and the pair of spreadsheets behind the backend (`GasBackend.Spreadsheet`).

Things the code cannot compute itself become parameters:

- Embedding models, cosine similarity scores, JSON parsing and printing.
- SHA-256, UUIDs and the clock.

Failure of an embedding request is modelled by the number of the first request that fails.

What a failed vectorisation run leaves in its CSV is stated as a row count:

- `VectorBuilder.WrittenRows` is the number of leading pending rows that the batch loop has written when a given loop request fails.
- For Ollama, that is every row before the row whose prompt fails.
- For sentence-transformers, it is every row of the batches before the failing one.
- `VectorBuilder.WrittenBeforeFailure` is the same count for the whole run. It is 0 when the Ollama warm-up fails.

## Model

| member | source | states |
|---|---|---|
| Text.ReplaceChar | 03_html_output/batch_generate.py:24 | `str.replace` of one character: same length, and exactly the matching positions are rewritten |
| Text.Find | 03_html_output/generate_html.py:25 | `str.find`: -1 exactly when the pattern does not occur, else the first position where it occurs |
| Text.RFind | 03_html_output/generate_html.py:26 | `str.rfind` of one character: -1 or the last position holding it |
| Text.ReplaceAllAbsent | 03_html_output/generate_html.py:34 | `str.replace` leaves a string without the pattern unchanged |
| Text.ReplaceAllFirst | 03_html_output/generate_html.py:58 | `str.replace` rewrites the first occurrence and goes on after it, so the text before the first occurrence is kept |
| Text.LowerAll | 03_html_output/batch_generate.py:24 | `str.lower` on ASCII text: the length is kept and each character is lowered (A-Z only; see Left out) |
| Text.NatToStringDigits | js/ui-common.js:57 | a number prints in a template string as a non-empty run of decimal digits |
| Text.NatToStringInjective | js/ui-common.js:57 | different problem numbers print differently, so problem ids of one source are distinct |
| Text.TrimStart | js/ui-index.js:50-51 | `parseInt` drops leading white space: the result is a suffix of the input that does not start with white space |
| Text.LeadingDigits | js/ui-index.js:50-51 | the digits `parseInt` reads: the longest all-digit prefix |
| Text.DigitsValueOfNat | js/ui-index.js:50-51 | reading back the printed digits of a number gives the number |
| Text.ParseIntPlain | js/ui-index.js:50-51 | `parseInt` of digits followed by a non-digit is the value of the digits |
| Text.ParseIntMinus | js/ui-index.js:50-51 | `parseInt` of a minus sign and digits is the negated value |
| Text.ParseIntRoundTrip | js/ui-index.js:50-51 | `parseInt` reads back any printed integer whatever non-digit text follows it |
| Seqs.Filter | js/api.js:11-13 | `Array.prototype.filter`: the kept elements, no more than the input |
| Seqs.FilterSound | js/api.js:11-13 | everything the filter keeps is a flagged input element |
| Seqs.FilterComplete | js/api.js:11-13 | every flagged input element is kept |
| Seqs.FilterSubMultiset | js/api.js:11-13 | the filter keeps each occurrence at most once |
| Seqs.SortByRankSpec | js/ui-detail.js:78-118 | `Array.prototype.sort` with a comparator returns a permutation sorted by (rank, position before the sort), i.e. a stable sort |
| Seqs.SortItemsPerm | js/ui-detail.js:78-118 | sorting permutes the sorted items |
| ProblemData.CheckedCount | js/ui-common.js:8 | `checks.filter(c => c && c.checked).length` is at most the array length and 0 exactly when no slot is checked |
| ProblemData.CheckedCountOf | js/ui-common.js:7-8 | a problem without a check entry has 0 checked slots |
| ProblemData.Bumped | js/ui-detail.js:316-328 | `counts[k] = (counts[k] \|\| 0) + 1`: k's count rises by one, k gets an entry, every other count is unchanged |
| Review.Interval | js/utils.js:10-15 | review intervals exist for the first three slots only (the fourth is Infinity, later ones undefined) |
| Review.LastChecked | js/utils.js:17-24 | the last checked slot: -1 or a checked index with no checked slot after it |
| Review.LastCheckedUnique | js/utils.js:17-24 | the last checked index is the only index with those two properties |
| Review.ShouldHighlight | js/utils.js:5-45 | the backward scan returns true exactly when the problem has an entry, a last checked slot among the first three, and more time than that slot's interval has passed since its timestamp (a null timestamp counts as 0) |
| Review.IsProblemUntouched | js/utils.js:47-59 | untouched exactly when the entry is missing or has no checked slot, i.e. its checked count is 0 |
| Review.UntouchedNeverHighlighted | js/utils.js:26-29 | an untouched problem is never due for review |
| Review.FourthStageNeverHighlighted | js/utils.js:14 | a problem whose last checked slot is the fourth or later is never due |
| Review.DueAfterInterval | js/utils.js:10-13 | after a check in slot 0, 1 or 2 the problem is due exactly when more than 1 hour, 1 day or 6 days have passed |
| Review.FirstCheckDueAfterAnHour | js/utils.js:33-35 | a first check at t is due at t + 61 minutes and not yet at t + 60 minutes (the comparison is strict) |
| BrowserStorage.CollapseKey | js/storage.js:46-47 | the collapse key is the prefix `majorCatCollapsed-` followed by the large category |
| BrowserStorage.GetItem | js/storage.js:5 | `getItem` is null exactly when the key is absent, else the stored text |
| BrowserStorage.LoadJSON | js/storage.js:4-7 | `loadJSON` gives the default for an absent key or a stored '' (falsy), else the parsed text |
| BrowserStorage.Load | js/storage.js:13-15 | `load` (`??`) gives the default only for an absent key |
| BrowserStorage.LoadShowUntouchedOnly | js/storage.js:42 | the filter flag is on exactly when the stored text is 'true' |
| BrowserStorage.IsMajorCatCollapsed | js/storage.js:46 | a large category is collapsed unless its stored text is exactly 'false', so it starts collapsed |
| BrowserStorage.Storage.constructor | js/storage.js:26 | the storage starts with the given items |
| BrowserStorage.Storage.Save | js/storage.js:17-19 | `save` sets exactly one key |
| BrowserStorage.Storage.Remove | js/storage.js:21-23 | `remove` deletes exactly one key |
| BrowserStorage.Storage.SaveJSON | js/storage.js:9-11 | `saveJSON` stores the printed value under the key and nothing else |
| BrowserStorage.Storage.SaveSortOrder | js/storage.js:41 | saves the order under its key; loading it back gives it for any default |
| BrowserStorage.Storage.SaveShowUntouchedOnly | js/storage.js:43 | saves the flag as 'true'/'false'; loading it back gives the flag |
| BrowserStorage.Storage.SetMajorCatCollapsed | js/storage.js:47 | saves the flag under the category's key; reading it back gives the flag |
| BrowserStorage.Storage.ResetAll | js/storage.js:50-55 | removes exactly the checks and the three reaction-count keys |
| BrowserStorage.SortOrderRoundTrip | js/storage.js:40-41 | a saved sort order loads back, whatever the default |
| BrowserStorage.EmptyStoredValue | js/storage.js:6 | a stored '' is returned by `load` as '' but read by `loadJSON` as the default |
| BrowserStorage.CollapseKeysDistinct | js/storage.js:46-47 | different large categories have different collapse keys |
| BrowserStorage.CollapseIndependent | js/storage.js:47 | setting one category's collapse flag leaves every other category's flag as it was |
| BrowserStorage.ResetKeepsPreferences | js/storage.js:50-55 | after `resetAll` the four reset keys are gone and every other key (sort order, filter flag) holds what it held |
| BrowserStorage.ResetKeepsCollapse | js/storage.js:50-55 | `resetAll` keeps every collapse flag |
| FrontState.MigrateEntry | js/state.js:42-45 | an old-format entry becomes slots of the same length: checked exactly where the old element was truthy, and then stamped with the migration time (else null) |
| FrontState.Migrated | js/state.js:39-47 | after migration the same problems have entries; old-format entries are converted and all others are unchanged |
| FrontState.MigrateChecks | js/state.js:37-49 | the in-place loop over the keys produces the migrated map and sets `needsSave` exactly when some entry was in the old format |
| FrontState.LegacyAmongAdd | js/state.js:39-40 | visiting one more key adds exactly that key's entry to the old-format test |
| FrontState.MigrationStep | js/state.js:39-47 | one turn of the loop keeps the loop invariant (visited keys migrated, unvisited keys untouched, the flag records what was seen) |
| FrontState.MigrationDone | js/state.js:48 | when every key has been visited, the map is fully migrated and the flag says whether migration was needed |
| FrontState.MigratedNotLegacy | js/state.js:40-45 | after migration no entry is in the old format |
| FrontState.MigrationIdempotent | js/state.js:28-33 | migrating migrated data changes nothing and asks for no save, so the save happens at most once |
| FrontState.NothingToMigrate | js/state.js:37-49 | data without an old-format entry is left exactly as it is |
| FrontState.MigrationKeepsShape | js/state.js:42 | migration keeps every entry and its number of slots |
| FrontState.AppState.constructor | js/state.js:3-17 | the initial `state` literal: empty maps and lists, sort order 'default', filter off |
| FrontState.FirstUndefinedCall | js/state.js:20-28 | the position of the first call to a function the `storage` object lacks, None exactly when every call is defined |
| FrontState.InitThrowsAtArchivedIds | js/state.js:20-24 | as written, the fifth call of `initState`, `loadArchivedProblemIds`, is the first the `storage` object does not define |
| FrontState.InitCallsDefinedWhenIntended | js/state.js:20-28 | with the three missing loaders defined, every call of `initState` is defined |
| FrontState.AppState.InitStateAsWritten | js/state.js:19-24 | as written: the sort order and the three reaction maps are loaded, then a TypeError is thrown; the checks and the archived ids keep their values and storage is not written |
| FrontState.AppState.InitState | js/state.js:19-34 | loads the sort order (default 'default'), the three reaction maps and the checks; the checks become their migrated form, and storage is rewritten (checks key only) exactly when migration was needed |
| ReferenceCounts.FilterSame | js/api.js:11-13 | the filtered similar list keeps only entries of the main problem's 中分類, no more than before |
| ReferenceCounts.FilterSameAppend | js/api.js:11-13 | the filter distributes over concatenation, so it keeps the order of what it keeps |
| ReferenceCounts.FilterSameKeeps | js/api.js:11-13 | an entry is kept exactly when it is in the list and has the same 中分類 |
| ReferenceCounts.FilterKeepsAllWithoutField | js/api.js:12 | when neither side carries 中分類 (the results file never does) both sides are undefined and every similar problem is kept, in order |
| ReferenceCounts.FilterCategory | js/api.js:10-14 | one category after the filter: same name, same entries, each with its filtered similar list |
| ReferenceCounts.ApplySameCategoryFilter | js/api.js:9-15 | the loop over all categories filters every entry's similar list |
| ReferenceCounts.Referenced | js/api.js:36-42 | the counted numbers of a similar list are no more than its length |
| ReferenceCounts.HistogramSpec | js/api.js:40 | the counts map holds exactly the counted numbers, each with its multiplicity |
| ReferenceCounts.HistogramSnoc | js/api.js:40 | counting one more number bumps its entry only |
| ReferenceCounts.CountEntry | js/api.js:36-42 | the inner loop adds one entry's counted numbers to the counts |
| ReferenceCounts.CountCategory | js/api.js:31-43 | a category's counts are the histogram of its counted numbers |
| ReferenceCounts.CalculateReferenceCounts | js/api.js:26-48 | rebuilds the counts from nothing, one map per middle category |
| ReferenceCounts.AllCountsKeys | js/api.js:30-47 | every middle category gets a counts map, even when nothing in it counts |
| ReferenceCounts.CategoryCountsSpec | js/api.js:35-43 | a number has an entry exactly when it occurs among the category's similar problems with similarity at least 0.5, and the entry is the number of such occurrences |
| ReferenceCounts.BelowThresholdIgnored | js/api.js:38 | a similar problem below 0.5 adds nothing |
| ProgressSummary.KeyText | js/ui-common.js:11-13 | a tier key's text ends in 'S' exactly when it is the plural `_CHECKS` form |
| ProgressSummary.KeyTextInjective | js/ui-common.js:38-49 | different tier keys have different texts, so counters keyed by `TierKey` are the source's counters keyed by text |
| ProgressSummary.ProblemTier | js/ui-common.js:5-15 | `getProblemTier`: archived exactly when the id is in the archived list, with the problem's checked count, always in the plural `_CHECKS` form |
| ProgressSummary.InitialKeyTexts | js/ui-common.js:38-49 | the initial one-check counters are written `..._1_CHECK`, the others `..._N_CHECKS` |
| ProgressSummary.Increment | js/ui-common.js:69 | `tierCounts[tier]++` gives the key an entry and changes no other key |
| ProgressSummary.CountCategory | js/ui-common.js:56-70 | the inner loop adds one middle category's points and tiers to the running totals |
| ProgressSummary.CountProgress | js/ui-common.js:52-71 | the loop over the middle categories gives the problem total, the achievement points (in quarters) and the tier counters grown from their start by every problem's tier |
| ProgressSummary.RenderTotalProgress | js/ui-common.js:30-86 | the problem total, the achievement points and the tier counters over every problem of every middle category, the counters starting from the ten keys the source initialises, so `TiersSpec` describes them: a one-check problem makes its `_1_CHECKS` counter NaN (see Findings) |
| ProgressSummary.TiersFromNum | js/ui-common.js:69 | a counter that starts as a number goes up by exactly the occurrences of its key |
| ProgressSummary.TiersFromUntouched | js/ui-common.js:69 | a key that never occurs keeps its start, present or absent |
| ProgressSummary.TiersFromNaN | js/ui-common.js:69 | a counter that did not start as a number is NaN once its key occurs (`undefined++`) |
| ProgressSummary.TiersWithSpec | js/ui-common.js:52-71 | from counters that start at 0, each counter counts exactly its tier's problems; any other key is NaN once used and absent otherwise |
| ProgressSummary.TiersSpec | js/ui-common.js:38-71 | the same for the ten counters the source initialises |
| ProgressSummary.NoTierNamed | js/ui-common.js:11-13 | no tier key of a problem is singular |
| ProgressSummary.NoSingularTier | js/ui-common.js:11-13 | no problem falls in a singular tier |
| ProgressSummary.OneCheckCountersStayZero | js/ui-common.js:38-49 | the initialised `_1_CHECK` counters stay 0 whatever the data |
| ProgressSummary.OneCheckMakesNaN | js/ui-common.js:38-69 | a problem with one checked slot makes the `_1_CHECKS` counter NaN |
| ProgressSummary.IntendedTiersExact | js/ui-common.js:38-49 | with the one-check counters initialised under the key `getProblemTier` returns, every counter counts exactly its tier and no other key appears (entries of at most four slots) |
| ProgressSummary.OneCheckCounted | js/ui-common.js:38-49 | with those counters, a problem with one checked slot is counted by a number, not NaN |
| ProgressSummary.QuarterPointsBound | js/ui-common.js:62-66 | with at most four slots per entry, the points are at most one per problem |
| ProgressSummary.AchievementPercentage | js/ui-common.js:74 | the percentage is 0 without problems, never negative, and at most 100 when the points are bounded |
| ProgressSummary.SumValuesRemove | js/ui-common.js:18-20 | the total of a counts map does not depend on the order of its keys |
| ProgressSummary.SumValuesBump | js/ui-common.js:18-20 | one more reaction raises that map's total by one |
| ProgressSummary.ReactionTotalsBump | js/ui-common.js:17-28 | the header's three reaction totals: one more reaction of one kind raises that total by one and leaves the other two |
| ProgressSummary.CountTrue | js/ui-common.js:148-150 | the number of due flags is at most the number of problems |
| ProgressSummary.CountTrueZero | js/ui-common.js:156-160 | the count is 0 exactly when no flag is set |
| ProgressSummary.CountDue | js/ui-common.js:146-151 | the inner loop adds the due problems of one middle category to the count |
| ProgressSummary.RenderTotalReviewCount | js/ui-common.js:141-152 | the loops count the problems due for review over all middle categories |
| ProgressSummary.ReviewCountSpec | js/ui-common.js:141-162 | the review count is at most the number of problems and 0 exactly when no problem is due (the 😊 case) |
| ProgressSummary.CeilDiv | js/ui-common.js:182 | `Math.ceil(x / d)`: the least r with x ≤ d·r |
| ProgressSummary.ExamCountdown | js/ui-common.js:164-192 | hidden without an exam date; else days left when the exam is ahead, exam day within the day, days passed otherwise, with the rounded-up day count |
| DetailView.FindCategory | js/ui-detail.js:25 | the entries of the category with that name, or None exactly when no category has it (the source throws) |
| DetailView.UntouchedItemsSpec | js/ui-detail.js:74-76 | "untouched only" keeps exactly the untouched entries, each at most once per occurrence |
| DetailView.RankedPositions | js/ui-detail.js:78-118 | the ranked list is numbered in its original order |
| DetailView.ProblemListSpec | js/ui-detail.js:69-119 | the list shows exactly the candidate entries (all, or the untouched ones) as a permutation, in rank order with ties in results-file order |
| DetailView.ProblemListOrdered | js/ui-detail.js:78-118 | every card ranks no lower than every card drawn before it |
| DetailView.SortOrderMeaning | js/ui-detail.js:78-118 | "review-first" puts due problems first, by number within each group; the reference, oshi, like and fear orders put higher counts first; any other order sorts by problem number |
| DetailView.DueProblemOnTop | js/ui-detail.js:24-89 | with "review-first" and no filter, a category holding a due problem shows a due problem on the first card |
| DetailView.UntouchedListHasNothingDue | js/ui-detail.js:74-76 | with "untouched only" set, no card shown is due for review |
| DetailView.ShowDetail | js/ui-detail.js:6-67 | an unknown category changes nothing; otherwise the order is "review-first" exactly when some problem is due, else the stored order, "untouched only" is restored from storage only on a reload or history move, and the list drawn is the problem list of that view |
| DetailView.SetUntouchedOnly | js/ui-detail.js:59-64 | the check box sets the flag, stores it so that it loads back, and redraws the list; nothing else changes |
| DetailView.ShownSimilarsSpec | js/ui-detail.js:171-190 | a card lists at most five similar problems, all scoring at least 0.5 and taken from its similar list: the first five of those, in order, and all of them when there are no more than five |
| DetailView.SimilaritySumBounds | js/ui-detail.js:178 | the sum of n scores of at least 0.5 is at least n/2, and at most n when scores are at most 1 |
| DetailView.SimilarSectionSpec | js/ui-detail.js:175-185 | the heading appears exactly when some similar problem scores at least 0.5; it says "top 5" exactly when more than five do, and the average lies between 50% and 100% when scores are at most 1 |
| DetailView.CheckBoxes | js/ui-detail.js:139-145 | four boxes; box i is ticked exactly when slot i holds a checked slot |
| DetailView.EntryOrFresh | js/ui-detail.js:266-268 | a problem without an entry gets four unchecked slots |
| DetailView.Toggled | js/ui-detail.js:271-282 | the written slot has the opposite tick, stamped with the click time exactly when it turns on |
| DetailView.ToggleCheckResult | js/ui-detail.js:262-283 | the click fails (throws) exactly when the array holds no object at the index; otherwise the problem gains an entry of the same length |
| DetailView.CheckedCountUpdate | js/ui-detail.js:279-282 | replacing one slot changes the checked count by the difference of the two slots |
| DetailView.ToggleFlipsOneBox | js/ui-detail.js:262-283 | a click flips exactly its box: its tick and the checked count change by one, every other box and every other problem keep their state |
| DetailView.ToggleTwice | js/ui-detail.js:262-283 | two clicks on the same box restore its tick and the checked count |
| DetailView.FourClicksCheckAll | js/ui-detail.js:262-283 | four clicks on the four boxes of a new problem check all four slots, each stamped with its click time |
| DetailView.ClickUnchecked | js/ui-detail.js:271-282 | a click on an unchecked slot checks it, stamped with the click time |
| DetailView.AllCheckedCount | js/ui-detail.js:139-145 | an entry whose every slot is checked counts all of them |
| DetailView.FreshCheckNotDue | js/ui-detail.js:279-299 | ticking a box with no ticked box after it makes it the latest check, so the problem is not due at that moment |
| DetailView.ToggleCheck | js/ui-detail.js:257-307 | the click handler applies `ToggleCheckResult` to the checks and stores them; when it throws, nothing is stored and only the initialisation step is kept; nothing else changes |
| DetailView.AddReaction | js/ui-detail.js:311-341 | one more reaction of the clicked kind, that map stored; an unknown kind changes nothing |
| CategoryIndex.GroupIndex | js/ui-index.js:39 | the group of a large category: -1 exactly when none has it, else a group with that name |
| CategoryIndex.GroupByLarge | js/ui-index.js:35-44 | the grouping loop builds `Grouped`: empty middle categories are skipped, the others join the group of their first problem's 大項目 or open one |
| CategoryIndex.FilterStep | js/ui-index.js:42 | after one more category, a group's members are those before plus the new one when it belongs |
| CategoryIndex.NoMembersYet | js/ui-index.js:39-41 | no earlier category names a large category that has no group yet |
| CategoryIndex.StepDistinct | js/ui-index.js:39-41 | a group opens only for a large category without one, so no two groups share a name |
| CategoryIndex.StepNonEmpty | js/ui-index.js:40-42 | every group keeps at least one member |
| CategoryIndex.StepCovers | js/ui-index.js:39-42 | the groups found before stay, and the new category's large category has one |
| CategoryIndex.StepMembers | js/ui-index.js:42 | each group's members stay exactly the categories under its name |
| CategoryIndex.GroupedStep | js/ui-index.js:36-43 | one more middle category keeps the meaning of the grouping |
| CategoryIndex.GroupedSpec | js/ui-index.js:35-44 | the grouping is one group per large category named by a non-empty middle category, no two for the same name, each holding exactly its non-empty middle categories in their order |
| CategoryIndex.GroupedOrder | js/ui-index.js:35-44 | the groups come in the order their large categories first appear among the non-empty middle categories, which decides ties in the sort of the large categories |
| CategoryIndex.BeforeDot | js/ui-index.js:50-51 | `s.split('.')[0]`: the prefix of `s` that holds no dot and ends where `s` ends or at its first dot |
| CategoryIndex.BeforeDotOf | js/ui-index.js:50-51 | the text before the dot of `a + "." + b` is `a` when `a` has no dot |
| CategoryIndex.LeadingNumberOfTitle | js/ui-index.js:49-51 | a title such as "1.基礎理論" is ranked by the number before its dot |
| CategoryIndex.RankedGroups | js/ui-index.js:48-52 | each group ranked by its title's number and numbered by position |
| CategoryIndex.SortedGroupRanks | js/ui-index.js:48-52 | after sorting, every entry still carries its own title's number |
| CategoryIndex.OrderedGroupsSpec | js/ui-index.js:48-53 | when every title is numbered, the large categories are shown each exactly once (a permutation), sorted by number and then by first appearance |
| CategoryIndex.OrderedGroupsAscending | js/ui-index.js:48-53 | when every title is numbered, the shown titles have ascending leading numbers |
| CategoryIndex.ItemsTallySnoc | js/ui-index.js:64-81 | one more problem adds its counters to a category's |
| CategoryIndex.AddProblem | js/ui-index.js:66-80 | one problem adds its checked slots to the archived or the non-archived count, one to the archived problems when archived, and one to the review items when due |
| CategoryIndex.CountProblems | js/ui-index.js:64-81 | the loop over a middle category's problems adds every problem's counters to the running ones |
| CategoryIndex.AddProblems | js/ui-index.js:61-82 | the loop body over a middle category adds its size and its problems' checked, archived and due counts to a large category's counters |
| CategoryIndex.SummarizeLarge | js/ui-index.js:55-82 | a large category's counters are those of its middle categories added up |
| CategoryIndex.ProblemTallyFacts | js/ui-index.js:66-80 | one problem counts as one problem, at most one archived and at most one due |
| CategoryIndex.ItemsTallyBounds | js/ui-index.js:136-154 | a category counts its problems exactly and no more archived or due problems than that; non-archived checks fit in four slots per problem when entries hold at most four |
| CategoryIndex.CategoryPercentage | js/ui-index.js:156-162 | the progress (non-archived checks/4 + archived problems) over the problem count: 0 without problems, never negative, at most 100 when the checks fit |
| CategoryIndex.PercentageBounds | js/ui-index.js:156-162 | a middle category's percentage lies between 0 and 100 when no entry has more than four checked slots |
| CategoryIndex.LargeTallySpec | js/ui-index.js:55-90 | a large category counts all problems of its middle categories, and no more archived or due problems than that |
| CategoryIndex.ReviewItemsPrefix | js/ui-index.js:168-174 | the review counter after j problems is the number of due flags among them |
| CategoryIndex.ReviewBadgeSpec | js/ui-index.js:168-181 | a category's 🔥 count is its number of due problems, and it shows exactly when the category holds a due problem, the condition under which opening it selects "review-first" |
| CategoryIndex.ProgressKept | js/ui-index.js:142-154 | rewriting an archived problem's entry leaves everything the percentage reads unchanged |
| CategoryIndex.ProgressShareKept | js/ui-index.js:144-153 | the same for one problem |
| CategoryIndex.ArchivedChecksIgnored | js/ui-index.js:138-162 | ticking or unticking a box of an archived problem leaves every middle category's percentage unchanged |
| CategoryIndex.PercentageOfShare | js/ui-index.js:156-162 | the percentage reads only the problem count, the non-archived checks and the archived problems |
| CategoryIndex.IntSumSnoc | js/ui-index.js:130-132 | one more problem adds its count to the total |
| CategoryIndex.SummarizeMiddle | js/ui-index.js:123-181 | a middle category's summary: the three reaction totals over its problems and its progress and review counters |
| CategoryIndex.SumReactions | js/ui-index.js:125-133 | the reaction loop totals each problem's oshi, like and fear counts |
| CategoryIndex.CountProgress | js/ui-index.js:138-154 | the progress loop counts the checked slots of non-archived and of archived problems and the archived problems |
| CategoryIndex.ReactionTotalBump | js/ui-index.js:128-133 | one more reaction on a problem raises a category's total of that kind by the number of its entries for that problem |
| CategoryIndex.ToggleCollapse | js/ui-index.js:226-237 | a click flips the shown state, stores it under that category's key only, and reading it back gives the new state |
| CategoryIndex.CollapseClickFlips | js/ui-index.js:217-237 | a title shown as stored, once clicked, is stored with the opposite state |
| SimilarityGraph.SimilarityColumnName | 03_html_output/main.py:13-23 | 'embedding' for embeddinggemma; otherwise "vector_" followed by the Hugging Face name (sentence-transformers configs that have one) or the name, with '/', '.', ':' and '-' turned into '_' |
| SimilarityGraph.SelectIgnoresOtherKeys | 03_html_output/main.py:25-29 | the output record depends only on the six display keys: adding, changing or removing any other field, the vector column included, leaves it unchanged |
| SimilarityGraph.Members | 03_html_output/main.py:33-37 | the rows of a group are row numbers of the table |
| SimilarityGraph.GroupRows | 03_html_output/main.py:32-37 | the grouping loop maps each middle category met to its members, and lists the categories in the order they were first met |
| SimilarityGraph.MembersSpec | 03_html_output/main.py:33-37 | a row is a member of group m exactly when it has a non-empty vector and its middle category is m; members are in row order |
| SimilarityGraph.KeysSpec | 03_html_output/main.py:32-37 | a category is listed, once, exactly when some row with a vector belongs to it |
| SimilarityGraph.CandidateList | 03_html_output/main.py:53-59 | the loop builds the candidate list of one focal item |
| SimilarityGraph.CandidatesSpec | 03_html_output/main.py:52-59 | the candidates are the other members, one each, in group order: the focal row never appears |
| SimilarityGraph.SortDescSpec | 03_html_output/main.py:62 | `sort(reverse=True)` returns a permutation sorted by score, highest first, keeping the input order among equal scores (Python's sort is stable also in reverse) |
| SimilarityGraph.FilterTop | 03_html_output/main.py:65-68 | the filter loop keeps the candidates at positions below 5 or scoring at least 0.9 |
| SimilarityGraph.CountHigh | 03_html_output/main.py:67 | the number of candidates at 0.9 or above is at most their number |
| SimilarityGraph.KeptIsPrefix | 03_html_output/main.py:61-68 | on a list sorted by score, the filter keeps a prefix: the first max(min(5, n), number at 0.9 or above) |
| SimilarityGraph.Entries | 03_html_output/main.py:52-73 | one entry per member, in group order |
| SimilarityGraph.CategoryEntries | 03_html_output/main.py:50-74 | the loop over the focal items builds the entries of one category |
| SimilarityGraph.CategoriesSpec | 03_html_output/main.py:45-74 | a group is listed exactly when it has at least two members, and then with one entry per member |
| SimilarityGraph.CategoriesStep | 03_html_output/main.py:45-74 | one more group adds its entries exactly when it has two members or more |
| SimilarityGraph.AddCategory | 03_html_output/main.py:45-74 | one turn over the groups: a group of fewer than two members is skipped, any other is added under its name |
| SimilarityGraph.ComputeSimilarities | 03_html_output/main.py:31-76 | groups the rows, skips groups of fewer than two members and lists the entries of every other group, in group order |
| SimilarityGraph.KeptSubset | 03_html_output/main.py:65-68 | the filter only drops candidates |
| SimilarityGraph.EntryFromGroup | 03_html_output/main.py:52-73 | the similar problems of a focal row never include it and all come from its group: rows with a vector and the same middle category, scored against the focal row |
| SimilarityGraph.EntryOrder | 03_html_output/main.py:52-73 | the similar problems of a focal row are ordered by score (ties in group order) and are the first max(min(5, n - 1), number at 0.9 or above) of the other members |
| SimilarityGraph.NoVectorNoEntry | 03_html_output/main.py:36 | a row whose vector is null or empty is neither a focal item nor a candidate |
| SimilarityGraph.FirstMissing | 03_html_output/main.py:108-112 | the first required column missing from the table, in the order they are checked, or None when all are present |
| SimilarityGraph.Run | 03_html_output/main.py:104-125 | a missing required column stops the run; otherwise the results of the similarity computation, with the model name embeddinggemma |
| ModelManifest.LastSegment | 03_html_output/batch_generate.py:24 | `split('/')[-1]` is a suffix of the name without '/', preceded by '/' when shorter than the name |
| ModelManifest.DefaultSafeName | 03_html_output/batch_generate.py:24 | the default safe name has the length of the last segment and holds no '-' and '.' and no ASCII upper-case letter |
| ModelManifest.SafeName | 03_html_output/batch_generate.py:24-30 | 'gemini' when the name contains 'gemini' or 'text-embedding', else 'e5' when it contains 'e5', else 'ruri' when it contains 'ruri', else the default derivation; never a '-', '.' or ASCII upper-case letter |
| ModelManifest.OutputFilename | 03_html_output/batch_generate.py:32 | the file name is prefix, safe name and suffix, and the safe name can be read back from it |
| ModelManifest.OutputFilenameInjective | 03_html_output/batch_generate.py:24-32 | two models write the same output file exactly when their safe names agree |
| ModelManifest.OutputFilenameIsFlat | 03_html_output/batch_generate.py:24-32 | an output file name never holds '/', so every result is written inside the output directory |
| ModelManifest.BuildManifest | 03_html_output/batch_generate.py:16-49 | the loop over the configured models appends the record of each successful run and skips each failed one |
| ModelManifest.SuccessesSpec | 03_html_output/batch_generate.py:41-49 | the successful runs are exactly the indices whose run succeeded, in increasing order |
| ModelManifest.ManifestSpec | 03_html_output/batch_generate.py:41-58 | the manifest lists exactly the successful models, in configuration order, each as its output file and model name |
| ModelManifest.AllSucceeded | 03_html_output/batch_generate.py:41-58 | when every run succeeds the manifest holds one record per model, in order |
| ModelManifest.NoneSucceeded | 03_html_output/batch_generate.py:41-58 | when every run fails the manifest is empty |
| ModelManifest.ModelOptionRejected | 03_html_output/main.py:79-84 | the similarity stage defines no `--model` option, so the arguments of every run are rejected |
| ModelManifest.ManifestAsWritten | 03_html_output/batch_generate.py:34-58 | as written, every run fails and the manifest is always empty |
| ModelManifest.ManifestIntended | 03_html_output/batch_generate.py:34-58 | with `--model` defined, the outcomes are exactly those of the stage runs |
| HtmlEmbed.PySlice | 03_html_output/generate_html.py:27 | Python slicing: in-range bounds give that slice, an empty range gives '', and the result is never longer than the text |
| HtmlEmbed.Clamp | 03_html_output/generate_html.py:27 | a slice bound in range is kept and a negative one counts from the end |
| HtmlEmbed.FindChar | 03_html_output/generate_html.py:25 | `find` of one character is the index of its first occurrence |
| HtmlEmbed.FindCharAbsent | 03_html_output/generate_html.py:25 | `find` of an absent character is -1 |
| HtmlEmbed.ExtractJson | 03_html_output/generate_html.py:25-27 | the extracted text is never longer than the file |
| HtmlEmbed.ExtractJsonSpan | 03_html_output/generate_html.py:25-27 | with a '{' before the last '}', the extracted text runs from the first '{' through the last '}' inclusive |
| HtmlEmbed.ExtractJsonNoClose | 03_html_output/generate_html.py:26-27 | a file without '}' extracts to '' |
| HtmlEmbed.ExtractJsonNoOpen | 03_html_output/generate_html.py:25-27 | a file without '{' extracts to "}" when it ends in '}' (find gives -1, a slice from the last character) and to '' otherwise |
| HtmlEmbed.EmbeddingScript | 03_html_output/generate_html.py:57 | the script tag carries the JSON text verbatim between its fixed opening and closing |
| HtmlEmbed.ModelName | 03_html_output/generate_html.py:31-38 | a present non-empty model is kept; otherwise the name guessed from the file name, or 'Unknown Model' when that is empty; never empty |
| HtmlEmbed.Generate | 03_html_output/generate_html.py:4-66 | a missing data file, JSON that does not parse, or a missing template stops the run; a run that goes on has a non-empty model name |
| HtmlEmbed.GenerateFirstPlaceholder | 03_html_output/generate_html.py:56-58 | the page is the template with its first placeholder replaced by the embedding script, and the same for the rest |
| HtmlEmbed.GenerateNoPlaceholder | 03_html_output/generate_html.py:58 | a template without the placeholder is written out unchanged |
| HtmlEmbed.FallbackDoesNotChangePage | 03_html_output/generate_html.py:29-58 | the model fallback never reaches the page: the text embedded is the extracted JSON, not the updated document |
| HtmlEmbed.UnparsedStopsRun | 03_html_output/generate_html.py:29-42 | JSON that does not parse stops the run whatever the template is |
| HtmlEmbed.ShippedFallback | 03_html_output/generate_html.py:11-38 | for the data file the script reads, problem_data.js, the guessed model name is 'problem_data', so 'Unknown Model' is not reached |
| VectorBuilder.TextsToEmbed | 02_vectorize/main.py:42-51 | None exactly when the text column is missing; otherwise one text per row, NaN cells as '' |
| VectorBuilder.ColumnName | 02_vectorize/main.py:53-55 | "vector_" followed by the model name with '/', '.' and ':' turned into '_' and every other character kept |
| VectorBuilder.ColumnNameKeepsHyphens | 02_vectorize/main.py:55 | a '-' in the model name stays a '-' in the column name, so this stage and the similarity stage name the column differently |
| VectorBuilder.UnprocessedIndices | 02_vectorize/main.py:83-84 | the pending indices are rows of the table, at most one per row |
| VectorBuilder.UnprocessedIndicesSpec | 02_vectorize/main.py:83-84 | the pending rows are exactly the rows whose cell is NaN, '' or 'None', each once, in row order |
| VectorBuilder.FromInput | 02_vectorize/main.py:75 | the copy has the input's rows and columns |
| VectorBuilder.Prepared | 02_vectorize/main.py:68-80 | the run starts from the saved table when there is one, else a copy of the input, and always holds the model's column |
| VectorBuilder.PreparedKeepsColumns | 02_vectorize/main.py:68-80 | every column of the starting table is kept, and all but the model's column unchanged |
| VectorBuilder.Fill | 02_vectorize/main.py:134-150 | a cell a known backend writes is never pending again |
| VectorBuilder.Completed | 02_vectorize/main.py:119-151 | completing keeps the column's length |
| VectorBuilder.ResumeMatchesUninterrupted | 02_vectorize/main.py:82-159 | resuming from a partly written column ends where an uninterrupted run ends |
| VectorBuilder.CompletedHasNothingPending | 02_vectorize/main.py:82-88 | after a completed run over a table no longer than the input texts nothing is pending, so the next run returns at once |
| VectorBuilder.NothingPendingIsComplete | 02_vectorize/main.py:86-88 | a column with nothing pending is already complete |
| VectorBuilder.CeilDivBounds | 02_vectorize/main.py:112 | `math.ceil(k / b)` is the least n with n * b at least k |
| VectorBuilder.CeilUnique | 02_vectorize/main.py:112 | there is only one such n |
| VectorBuilder.BatchesFlatten | 02_vectorize/main.py:120-123 | the batches cover the pending rows exactly once, in order |
| VectorBuilder.BatchesCount | 02_vectorize/main.py:112-120 | there are ceil(k / batch size) batches |
| VectorBuilder.ReachedBatches | 02_vectorize/main.py:120-124 | the loop gets through the leading batches whose rows all have an input text and stops at the first one that has a row without |
| VectorBuilder.ReachedAll | 02_vectorize/main.py:120-124 | the loop gets through every batch exactly when every pending row has an input text |
| VectorBuilder.FlattenBelow | 02_vectorize/main.py:120-124 | the rows of a run of batches have input texts when those of every batch do |
| VectorBuilder.BatchAt | 02_vectorize/main.py:121-123 | batch b is the slice [b * size, min((b + 1) * size, k)) of the pending rows |
| VectorBuilder.SavesAfterStep | 02_vectorize/main.py:117-166 | a batch adds a save exactly when its number is a multiple of 10 or it is the last, so a complete run makes ceil(n / 10) checkpoint saves |
| VectorBuilder.Prompts | 02_vectorize/main.py:129-139 | at most one request per row of a batch |
| VectorBuilder.PromptsAppend | 02_vectorize/main.py:129-139 | the requests of two runs of rows are those of each, in order |
| VectorBuilder.CallsOfAppend | 02_vectorize/main.py:120-151 | the requests of two runs of batches are those of each, in order |
| VectorBuilder.CallsOfOllama | 02_vectorize/main.py:127-143 | for Ollama, the requests of all batches are one per non-blank row, in row order |
| VectorBuilder.CallsOfBulk | 02_vectorize/main.py:145-151 | for sentence-transformers, one request per batch carrying the batch's texts in order |
| VectorBuilder.FilledIsProgressed | 02_vectorize/main.py:119-159 | writing the rows of a prefix of the pending list only fills pending cells |
| VectorBuilder.FilledAllIsCompleted | 02_vectorize/main.py:119-151 | writing every pending row gives the completed column |
| VectorBuilder.FilledStep | 02_vectorize/main.py:135-150 | writing the next row of a batch extends the written prefix of the batch by that row |
| VectorBuilder.FilledCompose | 02_vectorize/main.py:119-151 | writing one set of rows and then another is writing both |
| VectorBuilder.Attempted | 02_vectorize/main.py:126-163 | the requests made before a failure are a prefix of those planned |
| VectorBuilder.AttemptedPrefix | 02_vectorize/main.py:126-163 | the prefix ending with the failing request is what was attempted |
| VectorBuilder.AttemptedWithin | 02_vectorize/main.py:126-163 | a failure inside one batch cuts the run inside that batch |
| VectorBuilder.RunBatch | 02_vectorize/main.py:126-151 | one batch makes the planned requests up to a failure and succeeds exactly when none fails. When request f of the batch fails it has written exactly its first BatchWritten(f) rows and nothing else: for Ollama the rows before the failing row, for the bulk backend all rows or none. On success it has written every row |
| VectorBuilder.RunOllamaBatch | 02_vectorize/main.py:129-143 | the per-row loop makes one request per non-blank row up to a failure. When request f fails it has written exactly the RowsBefore(f) leading rows, the longest prefix making no more than f requests, and nothing else; on success every row |
| VectorBuilder.OllamaStep | 02_vectorize/main.py:130-143 | one row of the per-row loop adds its request when its text is not blank and writes its cell unless that request fails |
| VectorBuilder.OllamaRowFailed | 02_vectorize/main.py:139-163 | the failing row's request is the last one attempted in the batch |
| VectorBuilder.RunOllamaRow | 02_vectorize/main.py:133-143 | a blank text gets '[]' without a request; otherwise one request, and the cell is written exactly when it does not fail |
| VectorBuilder.PromptsSnoc | 02_vectorize/main.py:129-139 | one more row adds its request exactly when its text is not blank |
| VectorBuilder.PromptsPrefix | 02_vectorize/main.py:129-139 | the requests of a prefix of a batch are a prefix of the batch's requests |
| VectorBuilder.RunBulkBatch | 02_vectorize/main.py:145-151 | one request with the batch's texts; on success every row of the batch is written, on failure none |
| VectorBuilder.ProcessInBatchesCsv | 02_vectorize/main.py:57-181 | nothing pending: returns True with no request and no save. Otherwise the requests are the plan (warm-up for Ollama, then the batches the loop gets through) up to the first failure, and the run returns False exactly when one of them fails. Past that point it raises ZeroDivisionError for a batch size of 0, raises IndexError when a pending row of the saved table has no input text (after floor(b / 10) checkpoints for the b batches before it), and otherwise returns True. Every save keeps the other columns and only fills pending cells. With a positive batch size, checkpoint j holds exactly the first min(10 (j + 1) size, k) pending rows. A failed run that saves ends with a save holding exactly the first WrittenBeforeFailure pending rows: the rows of the batches before the failing one, then those of that batch before its failing request. A successful run with a positive batch size saves ceil(batches / 10) checkpoints plus the final table with the column completed; a negative batch size saves the starting table once; a failed warm-up or a zero batch size saves nothing |
| VectorBuilder.EmbedColumn | 02_vectorize/main.py:82-181 | the same statement for the model's column alone, the failure save included |
| VectorBuilder.WarmUpFirst | 02_vectorize/main.py:103-109 | an Ollama run with pending rows first sends the warm-up request |
| VectorBuilder.WarmUpThenBatches | 02_vectorize/main.py:103-163 | a run's requests are the warm-up request, if any, then those of the batches, and the run fails exactly when one of them fails |
| VectorBuilder.SnapshotsSaved | 02_vectorize/main.py:159-176 | every saved table keeps the other columns and only fills pending cells of the model's column |
| VectorBuilder.RunBatches | 02_vectorize/main.py:111-181 | the batch loop makes the requests of the batches it gets through, up to a failure. It raises exactly when no request fails and some pending row has no input text. Checkpoint j holds exactly the first min(10 (j + 1) size, k) pending rows. A failed batch adds one save holding exactly the first WrittenRows pending rows. A successful loop saves ceil(batches / 10) checkpoints plus a final save holding the completed column |
| VectorBuilder.BatchLoop | 02_vectorize/main.py:119-172 | the loop stops at the first failure and raises at the first batch holding a row without an input text. Checkpoint j holds exactly the first min(10 (j + 1) size, k) pending rows. A failed loop adds one last save holding exactly the first WrittenRows pending rows. On success every pending row is written and ceil(batches / 10) checkpoints are saved |
| VectorBuilder.BatchIteration | 02_vectorize/main.py:120-172 | one pass of the loop raises, with no request and no save, exactly at the first batch holding a row without an input text. Otherwise it runs the batch. A failed batch appends one save holding exactly the first WrittenRows pending rows written before the failing request, and stops the loop. After every tenth and after the last batch it appends a checkpoint that holds the rows of every batch so far |
| VectorBuilder.BatchStep | 02_vectorize/main.py:120-172 | one iteration of the loop extends the written prefix of the pending rows by exactly the rows its batch writes before a failure (the whole batch on success). When it fails, the failing request lies inside this batch and the requests are the whole plan cut at it |
| VectorBuilder.ProcessBatch | 02_vectorize/main.py:121-151 | batch b extends the written prefix of the pending rows by exactly the rows BatchWritten gives for its failing request, which is the whole slice when it succeeds |
| VectorBuilder.RowsBefore | 02_vectorize/main.py:129-143 | the rows the per-row loop writes when its request f fails: the longest prefix of the rows that makes no more than f requests |
| VectorBuilder.RowsBeforeUnique | 02_vectorize/main.py:129-143 | that prefix is the only one making at most f requests while one more row makes more |
| VectorBuilder.RowsBeforeFailing | 02_vectorize/main.py:133-143 | when request f fails, the row the loop stops at has a non-blank text, and the rows before it made exactly f requests |
| VectorBuilder.FailingPrompt | 02_vectorize/main.py:139 | the failing request f carries the text of the row the loop stops at |
| VectorBuilder.RowsBeforeSplit | 02_vectorize/main.py:120-143 | a failure inside one run of rows stops after all the rows before that run plus the rows of the run before its failing request |
| VectorBuilder.ReachedRowsSplit | 02_vectorize/main.py:120-124 | the rows of the batches the loop gets through are the b * size rows before batch b, the batch, then the rest |
| VectorBuilder.WrittenRowsAt | 02_vectorize/main.py:120-163 | a failure of loop request f inside batch b leaves written the b * size rows before the batch plus the rows the batch wrote before its failing request |
| VectorBuilder.OllamaFailingRow | 02_vectorize/main.py:127-163 | with Ollama, the failing request of the loop is the prompt of the first pending row left unwritten; the rows written before it made exactly the requests that went through |
| VectorBuilder.BulkFailingBatch | 02_vectorize/main.py:145-163 | with the bulk backend, failing request f is the one of batch f, which carries that batch's texts, and the f batches before it were written whole |
| VectorBuilder.FailedBatchRows | 02_vectorize/main.py:120-163 | the written prefix after a failed batch is the WrittenRows count of the failing request |
| VectorBuilder.FailedBatchWritten | 02_vectorize/main.py:120-163 | the same count, for a batch of those the loop gets through |
| VectorBuilder.FailedBatchSave | 02_vectorize/main.py:153-163 | the table saved after a failed batch holds exactly the WrittenRows leading pending rows |
| VectorBuilder.SaveFailedBatch | 02_vectorize/main.py:153-163 | the save after a failed batch is appended after the checkpoints and holds exactly the WrittenRows leading pending rows |
| VectorBuilder.CheckpointRows | 02_vectorize/main.py:117-172 | the save after batch b is checkpoint number SavesAfter(b) and holds the rows of batches 0..b, which is min(10 (j + 1) size, k) rows for checkpoint j |
| VectorBuilder.CheckpointsSnoc | 02_vectorize/main.py:165-172 | one more checkpoint holding the rows up to its batch keeps every checkpoint correct |
| VectorBuilder.SavedSnapshots | 02_vectorize/main.py:159-176 | the model's column of the saved tables is the sequence of saved columns |
| VectorBuilder.RequestsAfterBatch | 02_vectorize/main.py:120-163 | the requests after a batch are the plan so far, or the plan cut at the failing request |
| VectorBuilder.SelectModels | 02_vectorize/main.py:217-222 | without --model, or with an empty one (falsy), every configured model runs; otherwise the configured models of that name, in configuration order, or an error when there are none |
| VectorBuilder.Named | 02_vectorize/main.py:219 | the filter keeps exactly the models of that name |
| VectorBuilder.NamedMultiplicity | 02_vectorize/main.py:219 | each model of that name is kept as often as it is configured, any other not at all |
| VectorBuilder.NamedAppend | 02_vectorize/main.py:219 | the filter keeps configuration order: filtering a concatenation is concatenating the filtered parts |
| VectorBuilder.DropColumn | 02_vectorize/main.py:237-239 | --force removes only the model's column and keeps the rest unchanged |
| VectorBuilder.RunKeepsUnowned | 02_vectorize/main.py:159-176 | a save never changes a column that no selected model writes |
| VectorBuilder.DropKeepsUnowned | 02_vectorize/main.py:234-240 | dropping a selected model's column never changes a column that no selected model writes |
| VectorBuilder.RunModel | 02_vectorize/main.py:227-259 | one pass of the model loop keeps every column no selected model writes, and leaves a well-formed table with the row count of the file it started from (of the input when there was none), also when the run raises |
| VectorBuilder.RunModels | 02_vectorize/main.py:227-259 | a model that returns False does not stop the loop, so every model returns when none raises. A model that raises ends the loop before the last model. Columns no selected model writes are never changed, and the file keeps its row count |
| BulkVectorize.EncodeAll | 02_vectorize/vectorize.py:79-89 | the batches handed to `encode` are the slices of 32 texts in order, and the vectors are one per text, each the vector of its text |
| BulkVectorize.BatchesCoverTexts | 02_vectorize/vectorize.py:80-86 | the batches cover the texts in order, each once; there are (n + 31) // 32 of them, none empty or larger than 32 |
| BulkVectorize.WithVectors | 02_vectorize/vectorize.py:75-102 | the table written is the input with the vector column added (or replaced), holding the JSON of each row's vector, every other column unchanged |
| BulkVectorize.Vectorize | 02_vectorize/vectorize.py:31-110 | a missing text column is an error raised before any call to `encode`; an empty table is an error too (the per-text time divides by zero) and nothing is written; otherwise every row gets the vector of its text, NaN as '' |
| GasBackend.HexValue | gas/Code.js:418-421 | a lower-case hex digit stands for a value below 16 |
| GasBackend.HexDigit | gas/Code.js:418-421 | the digit written for a value below 16 reads back as that value |
| GasBackend.Unsigned | gas/Code.js:417-418 | a signed digest byte, plus 256 when negative, is below 256 |
| GasBackend.UnsignedAll | gas/Code.js:416-418 | the unsigned value of every digest byte, in order |
| GasBackend.ByteHexSpec | gas/Code.js:416-422 | each byte is written as two lower-case hex digits, a leading '0' when below 16, that read back as its unsigned value |
| GasBackend.HashTextShape | gas/Code.js:410-424 | the hash text has two lower-case hex digits per digest byte |
| GasBackend.DecodeHexSnoc | gas/Code.js:416-422 | appending one pair of digits appends one value |
| GasBackend.HashTextDecodes | gas/Code.js:410-424 | reading the hash text back two digits at a time gives the unsigned digest bytes |
| GasBackend.HashTextInjective | gas/Code.js:410-424 | two digests with the same hash text are equal, so the hex text loses nothing |
| GasBackend.HashPassword | gas/Code.js:410-424 | the loop over the digest builds its hex text |
| GasBackend.AppendByte | gas/Code.js:416-422 | one turn of the loop appends the byte's two hex digits |
| GasBackend.HashTextStep | gas/Code.js:416-422 | the hex text of one more byte is the previous text followed by that byte's two digits |
| GasBackend.FirstMatch | gas/Code.js:133-139 | the index of the first row that matches, and None exactly when no row matches |
| GasBackend.FirstMatchAt | gas/Code.js:133-139 | a matching row with no match before it is the first match |
| GasBackend.FindRow | gas/Code.js:133-139 | the scan over the rows, stopping at the first match, finds the first match |
| GasBackend.Unexpired | gas/Code.js:161-168 | only refresh tokens whose expiry is after now are kept, never more tokens than before |
| GasBackend.UnexpiredKeeps | gas/Code.js:161-168 | every refresh token whose expiry is after now is kept |
| GasBackend.RegisterOutcome | gas/Code.js:85-109 | registration succeeds exactly when id and password are given and no row has the id; it then appends one row with the password's hash and an empty refresh list, and a failure adds no row |
| GasBackend.RegisterTwice | gas/Code.js:98-102 | registering the same id again fails with 'User already exists' (or missing credentials) and adds nothing |
| GasBackend.LoginOutcome | gas/Code.js:111-190 | login succeeds exactly when id and password are given, the sheet is set up, and the first row with the id holds the password's hash; a failure writes nothing; a success changes only that row: new access token expiring in an hour, and the old unexpired refresh tokens followed by the new one expiring in sixty days |
| GasBackend.LoginAccessWindow | gas/Code.js:151-158 | after a login the returned access token names the user until an hour has passed and no longer |
| GasBackend.LoginThenRefresh | gas/Code.js:202-258 | within sixty days of a login its refresh token is accepted and names the same user |
| GasBackend.RefreshOutcome | gas/Code.js:202-258 | a refresh succeeds exactly when a token is given, the sheet is set up and some row holds it unexpired; it then changes only the first such row's access token and expiry |
| GasBackend.UserByAccessTokenSpec | gas/Code.js:381-408 | a user is named exactly when some row holds the token with an expiry after now; it is the first such row's user |
| GasBackend.ValidateSpec | gas/Code.js:192-200 | an absent or empty token is invalid; otherwise validation agrees with the token lookup |
| GasBackend.SaveOutcome | gas/Code.js:262-317 | a save conflicts exactly when the user has a row, a client version is given and differs from the stored one; a conflict writes nothing and reports the stored version; a save writes stored version + 1 in place, or appends version 1 for a new user |
| GasBackend.SaveThenLoad | gas/Code.js:262-345 | loading right after a save returns the saved data and the version the save reported |
| GasBackend.StaleVersionConflicts | gas/Code.js:298-301 | two clients saving from the same loaded version: once the first save is accepted, the second conflicts with the version the first wrote and changes nothing |
| GasBackend.Keep | gas/Code.js:348-377 | clearing keeps no row of the user |
| GasBackend.KeepSpec | gas/Code.js:348-377 | clearing keeps every other user's rows in order and drops all and only the user's rows |
| GasBackend.RowsOfAppend | gas/Code.js:364-369 | the rows of one owner in two runs of rows are those of each, in order |
| GasBackend.MatchingRowNumbers | gas/Code.js:364-369 | the collected sheet row numbers are rows of the user, in ascending order |
| GasBackend.DeleteRow | gas/Code.js:372 | deleting one sheet row removes one row |
| GasBackend.DeleteDownStep | gas/Code.js:371-374 | deleting from the bottom up is one deletion followed by the rest |
| GasBackend.DeletesToStep | gas/Code.js:371-374 | a bottom-up deletion that reaches the target still reaches it after its first deletion |
| GasBackend.DeleteDownPrefix | gas/Code.js:371-374 | the deletions done depend only on the row numbers used so far |
| GasBackend.DeleteDownAppend | gas/Code.js:371-374 | a row below every deleted one survives, at the end |
| GasBackend.DeleteMatchingKeeps | gas/Code.js:364-374 | deleting every row of the user from the bottom up leaves exactly the other rows, in order |
| GasBackend.DeleteMatchingHit | gas/Code.js:364-374 | the same when the last row is the user's |
| GasBackend.SnocHit | gas/Code.js:364-369 | one more row of the user adds its row number and is not kept |
| GasBackend.DeleteMatchingMiss | gas/Code.js:364-374 | the same when the last row is someone else's |
| GasBackend.CollectRows | gas/Code.js:364-369 | the first loop collects the user's sheet row numbers in ascending order |
| GasBackend.DeleteRows | gas/Code.js:371-374 | the second loop deletes those rows from the last to the first |
| GasBackend.WriteData | gas/Code.js:289-316 | the write of a save: the response and the rows are those of the save of the user's row |
| GasBackend.ClearThenLoad | gas/Code.js:319-377 | after a successful clear, a load finds no data and version 0 |
| GasBackend.Spreadsheet.constructor | gas/Code.js:85-408 | the spreadsheet starts with the given users and data sheets |
| GasBackend.Spreadsheet.RegisterUser | gas/Code.js:85-109 | the users sheet and the response become those of registration; the data sheet is unchanged |
| GasBackend.Spreadsheet.LoginUser | gas/Code.js:111-190 | the users sheet and the response become those of login; the data sheet is unchanged |
| GasBackend.Spreadsheet.GetUserByAccessToken | gas/Code.js:381-408 | the user named by the token lookup, nothing changed |
| GasBackend.Spreadsheet.ValidateToken | gas/Code.js:192-200 | the response of validation, nothing changed |
| GasBackend.Spreadsheet.RefreshTokenFlow | gas/Code.js:202-258 | the users sheet and the response become those of the refresh; the data sheet is unchanged |
| GasBackend.Spreadsheet.SaveDataWithAuth | gas/Code.js:262-317 | the data sheet and the response become those of the save; the users sheet is unchanged |
| GasBackend.Spreadsheet.LoadDataWithAuth | gas/Code.js:319-345 | the response of the load, nothing changed |
| GasBackend.Spreadsheet.ClearUserData | gas/Code.js:348-377 | the data sheet and the response become those of clearing; the users sheet is unchanged |

## Findings

| source | as written | input that shows it | evidently intended | confidence | as-written member | corrected member |
|---|---|---|---|---|---|---|
| js/ui-common.js:38-69 | `tierCounts` is initialised with the keys `NOT_ARCHIVED_1_CHECK` and `ARCHIVED_1_CHECK`, but `getProblemTier` returns `..._1_CHECKS`, so `tierCounts[tier]++` increments a key that was never set (`undefined++` is NaN) and the initialised one-check counters stay 0 | one problem, not archived, whose check array has exactly one checked slot: `NOT_ARCHIVED_1_CHECKS` becomes NaN and `NOT_ARCHIVED_1_CHECK` stays 0 | the ten counters are named as `getProblemTier` names the tiers, so every tier, the one-check tiers included, is counted by a number | high (not executed) | ProgressSummary.OneCheckMakesNaN | ProgressSummary.IntendedTiersExact |
| js/state.js:19-34 | `initState` calls `storage.loadArchivedProblemIds`, `loadFavorites` and `loadExamDate`, which the `storage` object does not define | any page load: the call at line 24 throws a TypeError after the sort order and reaction maps were loaded, so the checks are never loaded or migrated | the three loaders exist, `initState` completes, and the checks are loaded and migrated | high (not executed) | FrontState.InitThrowsAtArchivedIds | FrontState.AppState.InitState |
| 03_html_output/batch_generate.py:34-49 | the driver runs the similarity stage with `--model <name>`, an option that 03_html_output/main.py:79-84 does not define | any configured model: `parse_args` exits with status 2, `check=True` raises the error the loop catches, and the manifest stays `[]` | the stage accepts `--model`, so each model's record appears when its run succeeds | high (not executed) | ModelManifest.ManifestAsWritten | ModelManifest.ManifestIntended |

`ProgressSummary.Tiers` and `ProgressSummary.TiersSpec` describe the counters as written, and `ProgressSummary.OneCheckCountersStayZero` shows the initialised one-check counters never move. `ProgressSummary.RenderTotalProgress` counts from these counters as written. The corrected counters are `ProgressSummary.IntendedTiers`; `ProgressSummary.CountProgress` started from them gives `ProgressSummary.IntendedTierCounts`, which `ProgressSummary.IntendedTiersExact` proves exact, and `ProgressSummary.OneCheckCounted` shows that a problem with one check is then counted.

`FrontState.AppState.InitStateAsWritten` models `initState` up to the TypeError. `FrontState.AppState.InitState` models it with the missing loaders defined (`FrontState.InitCallsDefinedWhenIntended`). There the archived ids are a parameter, and favourites and the exam date are not part of the modelled state.

`ModelManifest.Outcomes` makes a run's success depend on the stage's command line. `ModelManifest.ManifestAsWritten` shows the manifest is empty with the options as written. `ModelManifest.ManifestIntended` shows that, with `--model` defined, the outcomes are those of the runs, as `ModelManifest.BuildManifest`, `ModelManifest.ManifestSpec` and `ModelManifest.AllSucceeded` take them.

## Left out

- File and network I/O are not modelled. This covers CSV reading and writing, the YAML configuration, the template and data-script reads, the HTML and manifest writes, logging, progress bars, timing and argparse. File contents are inputs, and the tables a run saves are outputs.
- A write that fails is not modelled. Every save of `process_in_batches_csv`, the final one included, and every write of the page and of the manifest is taken to succeed.
- The embedding backends are oracles. For `SentenceTransformer` and `ollama.Client`, a backend is an embedding function plus the number of the first request that raises. Only that first-failure pattern is modelled; each Ollama request is one warm-up or one row.
- Cosine similarity and all floating-point arithmetic are not modelled. Scores are a given matrix of reals. Percentages are kept as quarter points and as rationals. `toFixed`, float formatting and the tier percentages of `renderTotalProgress` are left out.
- JSON parsing and printing, SHA-256, UUID generation and the clock are parameters. This covers `json.loads`, `JSON.parse`, `JSON.stringify`, `json.dumps`, `Utilities.computeDigest`, `Utilities.getUuid` and `new Date()`.
- `JSON.parse` throwing on malformed stored text is not modelled; the oracle yields a value or none.
- The similarity stage run by `batch_generate.py` is a parameter: one outcome per model, combined with whether its arguments parse (see Findings). Command lines are parsed as option-value pairs only; an ambiguous abbreviation and any other argparse rule are not modelled.
- `03_html_output/main.py` is modelled from its input table on. Choosing the model from the configuration and loading the vectors from JSON cells are left out.
- `SimilarityGraph.ComputeSimilarities`: a row's vector is present or absent, where absent means JSON null or `[]`, which the source skips. A record without the vector key is not modelled: pandas makes its cell NaN, and `len(NaN)` raises a TypeError at 03_html_output/main.py:36. When no record has the key, `row[vector_column]` raises a KeyError at line 35. Either way the run crashes instead of skipping the row.
- Only the similarity ranking is modelled. Some descriptions of the system mention a threshold-only policy; the code keeps the top five plus every score of 0.9 or more, and the model follows the code.
- DOM construction and rendering are not modelled. This covers HTML strings, event wiring, `scrollIntoView`, notifications, mobile links, `isMobileDevice` and the accordion of the detail view. The panel selector at js/ui-detail.js:296-300 never matches a rendered element; it only affects the DOM, so it is left out.
- History and popstate plumbing is left out. Whether the detail view is entered from popstate is a parameter of `DetailView.ShowDetail`.
- JavaScript object key enumeration order is not modelled. Maps are Dafny maps, so results never depend on key order.
- `FrontState.AppState.InitState` is the corrected `initState` (see Findings). It takes the archived ids as a parameter; favourites and the exam date are not part of the modelled state.
- `CategoryIndex.OrderedGroupsSpec`: a comparator that returns NaN is not modelled. When a large-category title has no leading number, `OrderedGroups` returns None instead of an order, and the properties hold only when every title is numbered.
- `Text.LowerAll`: lower-casing covers ASCII only (A-Z). Python's `str.lower` is full Unicode; it lowers letters such as 'Ä' and can change the length ('İ' lowers to two characters). The model therefore covers model names whose letters are ASCII, as the shipped configuration's are.
- `ModelManifest.DefaultSafeName` and `ModelManifest.SafeName` inherit that restriction: their 'no upper-case letter' means no ASCII upper-case letter.
- Stored check arrays are JavaScript arrays whose elements are a slot object, a boolean or null. Other stored shapes are not modelled, such as a non-array entry, or a slot whose `checked` is a non-boolean truthy value.
- `VectorBuilder.RunModels` states how many models returned, that an exception ends the loop, that columns no selected model writes are preserved and that the row count is kept. It does not state which outcome each model gets; that is `VectorBuilder.ProcessInBatchesCsv`'s contract.
- The batch size is an integer. A configured batch size that is a float or a string is not modelled.
- `VectorBuilder.RunModel` states that columns no selected model writes are preserved and that the table stays well formed. The file's new content is the last table `VectorBuilder.ProcessInBatchesCsv` saved, which that method's contract describes.
- The GAS request dispatch is not modelled. This covers `doPost`, routing by action, `LockService`, `ContentService` and the spreadsheet lookup.
- Sheet columns are reached through fixed fields of a row, not by looking up header names. A sheet without the needed header columns is modelled as not set up.
- Dates in the GAS sheets are integer milliseconds, with invalid or blank cells as none.
- Cells that are not strings are not modelled, and each request reads the clock once.
- 01_scraping and the test, deployment and server scripts are not part of this model.
