# Personal budget manager: the ledger and its figures

This project models the core of a browser budget tracker (`script.js`) in Dafny
and proves properties of that model. The tracker keeps three module-level
variables: a list of transactions, a savings goal and the id of the transaction
being edited. Event handlers do the following:

- validate the transaction form, then either update the edited entry or append
  a new one;
- arm and cancel an edit;
- delete entries;
- set the goal.

After a submit or a delete the handlers save the list and re-render it, which
sorts the array in place, newest first. Setting the goal saves only the goal;
arming or cancelling an edit saves nothing. Three figures are derived from the list:

- the dashboard: income and expense totals, net savings, a five-bucket expense
  breakdown and the progress towards the goal;
- a month-by-month income and expense series in chronological order;
- the sorted display list.

The modules follow that structure:

- `Text` (`text.dfy`): `String.prototype.trim` as the form applies it to the
  name.
- `Entries` (`entries.dfy`): the records, the form's validation, and the
  per-entry rewrites. `ApplyEdit` is the `map` of the update branch and
  `Without` is the `filter` of delete.
- `DisplaySort` (`display_sort.dfy`): the in-place stable sort, newest first,
  as an insertion sort over an `array`. It is proved against a specification
  (`ShownAs`), and that specification is proved to have only one possible
  result.
- `Aggregation` (`aggregation.dfy`): the dashboard loop, goal progress, and
  monthly grouping and ordering. All of it is stated through one sum function,
  `Sum(ts, selection)`.
- `Budget` (`ledger.dfy`): the `Ledger` class. It holds the `transactions`
  array, `savingsGoal`, `editingTransactionId`, and ghost copies of what the
  store holds. The handlers are its methods.

`Ledger.Valid()` holds after every handler. It says two things. First, the goal
equals what reloading the store would give. Second, the stored entries are the
entries in memory, up to the display sort.

Some behaviours of the code are worth stating outright:

- An update whose edited id no longer exists (the entry was deleted after the
  edit was armed) is a silent no-op. The update rewrites nothing and the input
  is dropped (`Budget.SubmitForDeletedEntry`, `Entries.ApplyEditAbsent`).
- Amounts are not checked to be positive. Any number, including a negative one,
  is accepted. Any `type` other than `"income"` counts as an expense.
- The edit test is JavaScript truthiness. An armed id of `0` does not count as a
  pending edit, so submit appends (`Budget.IsPending`).
- Deleting leaves a pending edit armed.
- Ids are taken from the clock and never checked for uniqueness. Uniqueness is
  therefore proved conditionally: it is preserved when the new id is fresh
  (`Budget.SubmittedKeepsUnique`, `Entries.WithoutKeepsUnique`).
- Goal progress is not floored at 0.
- Sorting is a side effect of rendering. It reorders the in-memory array, and
  later saves write that order.

## Model

| member | source | states |
|---|---|---|
| Text.Trim | script.js:71 | the trimmed name is a slice of the input with only white space before and after it; it is empty exactly when every character is white space, and otherwise starts and ends with a character that is not white space |
| Text.TrimStart | script.js:71 | the result is a suffix of the input, everything dropped is white space, and the result does not start with white space |
| Text.TrimEnd | script.js:71 | the result is a prefix of the input, everything dropped is white space, and the result does not end with white space |
| Entries.Validate | script.js:71-81 | a submit is refused exactly when the trimmed name is empty, the amount is NaN or the date is missing; an accepted draft carries the trimmed name, which is non-empty, and the input's amount, type, category and date |
| Entries.ApplyEdit | script.js:85-90 | the update keeps the length and every id; entries with the edited id get the draft's fields; all other entries are unchanged |
| Entries.ApplyEditAbsent | script.js:85-90 | updating an id that no entry carries leaves the list unchanged |
| Entries.ApplyEditKeepsIds | script.js:85-90 | the update keeps the set of ids, and so keeps them unique |
| Entries.Without | script.js:179 | delete never lengthens the list |
| Entries.WithoutMembers | script.js:179 | delete keeps exactly the entries whose id differs from the argument |
| Entries.WithoutAbsent | script.js:179 | deleting an absent id leaves the list equal to the input |
| Entries.WithoutConcat | script.js:179 | delete acts on each part of the list separately, so kept entries keep their order |
| Entries.WithoutIdempotent | script.js:179 | deleting the same id twice equals deleting it once |
| Entries.WithoutKeepsUnique | script.js:179 | delete keeps ids unique |
| Entries.AddThenDelete | script.js:94-105 | appending an entry with a fresh id and then deleting that id gives back the list |
| DisplaySort.SortNewestFirst | script.js:141 | the array ends up newest first; entries of one day keep their relative order; and the contents are a permutation of the old contents |
| DisplaySort.InsertStep | script.js:141 | inserting the next entry behind every entry not older than it keeps the prefix sorted, stable and a permutation |
| DisplaySort.SortedOrderIsUnique | script.js:141 | two lists sorted newest first, holding the same entries in the same order within each day, are equal |
| DisplaySort.DisplayOrderIsDetermined | script.js:141 | a stable newest-first sort has one possible outcome, so the insertion sort agrees with any stable sort of the same list |
| Aggregation.Bucket | script.js:202-206 | a category from the list of five maps to its own bucket; any other category maps to "Other" |
| Aggregation.SumConcat | script.js:197-208 | every total, bucket and monthly sum is additive over the two parts of a list |
| Aggregation.SumPermutation | script.js:197-208 | sums do not depend on the order of the entries |
| Aggregation.BucketsPartitionExpenses | script.js:194-208 | the five bucket sums add up to the expense total |
| Aggregation.IncomeLeavesBreakdown | script.js:198-199 | an income entry adds to no bucket |
| Aggregation.UnknownCategoryGoesToOther | script.js:202-206 | an expense outside the five categories adds its amount to "Other" and nowhere else |
| Aggregation.GoalProgress | script.js:218 | progress is at most 100 and is either 100 or net/goal*100; for a positive goal it is 100 exactly when net savings reach the goal and negative exactly when net savings are negative |
| Aggregation.ComputeDashboard | script.js:188-224 | the totals are the income and expense sums and net savings is their difference; progress is GoalProgress; the labels are the five categories in order; each value is its bucket's sum; the values add up to the expense total; an empty list gives zeros |
| Aggregation.MonthsMembers | script.js:256-260 | a month is among the list's months exactly when some entry is dated in it |
| Aggregation.NoMonthNoSum | script.js:258-265 | a month with no entries has zero income and zero expense |
| Aggregation.MonthsPartitionFlow | script.js:256-266 | listing each month once, the month sums add up to the income total, or to the expense total |
| Aggregation.GroupStep | script.js:256-266 | taking one more entry into the grouping changes only its own month's sums and adds its month if new |
| Aggregation.GroupByMonth | script.js:256-266 | the map has one entry per month that has entries, holding that month's income and expense sums; the key list names each of those months once |
| Aggregation.SortMonths | script.js:269 | the months come out strictly chronological, with the same months and the same count |
| Aggregation.MonthlySeries | script.js:253-271 | the series is chronological and has exactly the months with entries, each with its own sums; the series adds up to the income and the expense totals |
| Budget.LoadGoal | script.js:23 | the loaded goal is the stored one when it is truthy, and 5000 when it is missing or 0; it is never zero |
| Budget.Submitted | script.js:83-105 | an update is the `ApplyEdit` of the edited id (its entries take the draft's fields, all others stay as they were), keeping the length and the ids; an add keeps every earlier entry in place and puts exactly one entry, with the given id and fields, at the end |
| Budget.SubmittedKeepsUnique | script.js:94-105 | submitting keeps ids unique when the new id is fresh |
| Budget.SubmitForDeletedEntry | script.js:83-91 | submitting while the edited entry no longer exists leaves the list unchanged |
| Budget.AddThenDeleteRestores | script.js:94-105 | an add followed by a delete of the new id restores the list |
| Budget.Ledger.GoalIsUsable | script.js:23 | in a valid ledger the goal is never zero, so the dashboard's progress is defined; with no stored goal it is 5000 |
| Budget.Ledger.Load | script.js:22-24 | start-up holds the stored entries or none, the stored goal or 5000, and no pending edit; the store is recorded as holding those entries and that goal |
| Budget.Ledger.Submit | script.js:64-115 | refused input changes nothing; accepted input saves the updated or extended list, clears the edit, and leaves the array sorted for display; the goal is untouched |
| Budget.Ledger.Commit | script.js:83-111 | the update or the add branch, then the save and the form reset |
| Budget.Ledger.UpdateEdited | script.js:83-91 | the entries with the edited id take the draft's fields; the result is saved and the edit is cleared |
| Budget.Ledger.Append | script.js:94-108 | one new entry with the given id goes at the end, and the result is saved |
| Budget.Ledger.Save | script.js:108 | the list is replaced and written to the store |
| Budget.Ledger.Edit | script.js:162-165 | an edit is armed for an id exactly when some entry has it; otherwise nothing changes; the ledger stays valid |
| Budget.Ledger.Reset | script.js:118-119 | resetting the form clears the pending edit and keeps the ledger valid |
| Budget.Ledger.Delete | script.js:177-183 | after confirmation, the entries with the id are removed and the rest are saved in order, then sorted for display; otherwise nothing changes; the pending edit and the goal are untouched |
| Budget.Ledger.SetGoal | script.js:313-321 | a NaN or non-positive value is refused and changes nothing; otherwise the goal and the stored goal become the value |
| Budget.Ledger.RenderTransactions | script.js:131-141 | rendering sorts the array newest first and stably, changes no stored data, and changes none of the sums derived from the list |

## Left out

- The page and its widgets are not modelled. This covers form fields, list
  HTML, dashboard text and the progress-bar width. It also covers the Chart.js
  charts, the theme toggle and its stored setting, and `alert`. These are
  presentation only.
- `confirm` becomes the `confirmed` parameter of `Ledger.Delete`.
- The store (`localStorage` with JSON) is modelled as ghost fields holding what
  was last saved. Stored values that are not numbers or lists (corrupt JSON,
  strings) are not modelled.
- `Date.now()` becomes the `now` parameter of `Submit`.
- `Budget.Ledger.Submit`: does not require a fresh id, because the source does
  not check one. Uniqueness is stated separately in `Budget.SubmittedKeepsUnique`.
- Amounts are mathematical reals. IEEE rounding, `toFixed` formatting and
  non-finite values (`parseFloat` accepts `"Infinity"`) are not modelled.
  NaN from `parseFloat` is `None`.
- A date is an abstract (year, month, day) and an empty date field is `None`.
  Date-string parsing is not modelled.
- The monthly series is keyed by (year, month). The source keys it by a
  locale-dependent label such as "Jan 2024" and sorts the labels by parsing them
  back. It also takes the month in local time from a date parsed as UTC
  midnight. The model therefore does not capture these effects of locale or
  time zone.
- A category named after an inherited object property (e.g. `"toString"`)
  passes the source's `!== undefined` test and would not go to "Other". The
  model assumes such names do not occur and treats every category outside the
  five as "Other".
- `transactions.push` grows the array in place. The model allocates a new array
  for every change (`Ledger.Save`), so aliasing of the old array is not captured.
