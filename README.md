# Expense tracker core, modelled in Dafny

This project models the state and aggregation logic of a small React Native expense tracker:

- **The expense record** (`expense.dfy`, module `ExpenseModel`):
  - a closed `Category` set;
  - the five-field `Expense`, with money in whole cents;
  - the exact integer sum of amounts;
  - ISO `"YYYY-MM-DD"` dates.
- **The key-value repository** (`repository.dfy`, module `Repository`):
  - one storage slot holds the whole list; `add`, `update` and `remove` read it, change it and write all of it back, and `replaceAll` only writes;
  - the slot is a field of the class `AsyncStorageRepository`;
  - JSON text is modelled by the list it encodes.
- **The expense state hook** (`use_expenses.dfy`, module `ExpensesHook`):
  - `items`, `loading` and `range` are fields of the class `ExpensesState`, and the callbacks are its methods;
  - `refresh` sorts an array in place, newest first;
  - the derived `visible` list and `totalCents` are functions;
  - the current year and month, and the fresh id, are parameters.
- **The statistics** (`use_stats.dfy`, module `Stats`):
  - `byCategory` is a loop over a `Map` from category to cents, whose keys keep insertion order, followed by the map's entries;
  - the grand total is an integer sum.

Two support modules model the JavaScript built-ins the core relies on:

- `text.dfy` (`Text`):
  - the string `<`, as character (code-point) lexicographic order;
  - `startsWith` and `padStart`;
  - `${n}` for integers;
  - decimal digit strings.
- `seqs.dfy` (`Seqs`): `Array.prototype.filter`. `scenario.dfy` (`Scenario`) walks the app's typical use through the model: two records added to empty storage, then the month filter, the total and the category breakdown.

The repository's slot is a datatype with four cases:

- `Missing`: `getItem` returned `null`.
- `Blank`: the empty string.
- `Json(xs)`: a serialised list.
- `Malformed`: text `JSON.parse` rejects.

So `raw ? JSON.parse(raw) : []` and its failure are both represented. A read failure propagates:

- `add`, `update` and `remove` then write nothing;
- `refresh` then leaves `loading` set and `items` as they were.

Three behaviours of the code are worth noting; the model follows the code:

- The code checks neither `amountCents > 0` nor a non-empty title in `add`. The model has no such precondition, so it admits any integer amount and any title.
- Reading the slot fails when the stored text is not valid JSON, even though an absent list is never an error.
- The code does not make ids unique. `makeId` is outside the model, and nothing assumes uniqueness. `update` replaces only the first match, and `remove` drops every match.

## Model

| member | source | states |
|---|---|---|
| ExpenseModel.SumCents | src/hooks/useStats.ts:14 | the `reduce` total of `amountCents`, a left fold from 0 (also the sum at src/hooks/useExpenses.ts:58); with no negative amount the total is non-negative and at least every single amount |
| ExpenseModel.DateStringOrder | src/models/Expense.ts:8 | the order half of `DateOrderIsStringOrder` |
| ExpenseModel.DateStringEquality | src/models/Expense.ts:8 | the equality half of `DateOrderIsStringOrder` |
| ExpenseModel.SumCentsConcat | src/hooks/useStats.ts:14 | the reduce-sum of a concatenation is the sum of the sums |
| ExpenseModel.SumCentsPermutation | src/hooks/useExpenses.ts:58 | two lists with the same records (as a multiset) have the same cents total, so reordering never changes a total |
| ExpenseModel.DateOrderIsStringOrder | src/models/Expense.ts:8 | on "YYYY-MM-DD" strings, string `<` holds exactly when the first date is earlier by year, then month, then day; two date strings are equal exactly when year, month and day agree |
| Text.LexLess | src/hooks/useExpenses.ts:23 | the string `<` the comparator uses, compared character by character, with a proper prefix smaller; it never holds between equal strings |
| Text.StartsWith | src/hooks/useExpenses.ts:55 | `startsWith`: the string is at least as long as the prefix and agrees with it at every position of the prefix, and conversely |
| Text.IntToString | src/hooks/useExpenses.ts:54 | `${year}`: non-empty, starts with `-` exactly for a negative number, and otherwise is the digits of the number |
| Text.LexLessIrreflexive | src/hooks/useExpenses.ts:23 | no string is `<` itself |
| Text.LexLessTransitive | src/hooks/useExpenses.ts:23 | string `<` is transitive |
| Text.LexLessTrichotomy | src/hooks/useExpenses.ts:23 | of two strings, one is `<` the other or they are equal |
| Text.LexLessConcat | src/models/Expense.ts:8 | comparing `p1+p2` with `q1+q2`, where `p1` and `q1` have the same length, compares the first parts, and the second parts when the first parts are equal |
| Text.PadStart | src/hooks/useExpenses.ts:54 | `padStart` gives a string of length `max(width, |s|)` that ends in `s` and is filled with the fill character in front |
| Text.DecimalOrder | src/models/Expense.ts:8 | two digit strings of equal length compare with `<` as their decimal values do, and are equal exactly when their values are |
| Text.NatToString | src/hooks/useExpenses.ts:54 | `${n}` for a natural number is a non-empty string of digits |
| Text.NatToStringValue | src/hooks/useExpenses.ts:54 | the digits `${n}` produces denote `n` |
| Text.FourDigitYear | src/hooks/useExpenses.ts:54 | a year from 1000 to 9999 renders as four characters |
| Seqs.Filter | src/repo/AsyncStorageExpenseRepository.ts:28 | `filter` never lengthens the list and keeps only accepted elements |
| Seqs.FilterIsSubsequence | src/hooks/useExpenses.ts:55 | the filtered list is a subsequence of the input: relative order is kept |
| Seqs.FilterCount | src/hooks/useExpenses.ts:55 | an accepted value occurs as often as in the input, any other value not at all |
| Seqs.FilterMembership | src/hooks/useExpenses.ts:55 | a value is in the result exactly when it is in the input and accepted |
| Seqs.FilterKeepsAll | src/repo/AsyncStorageExpenseRepository.ts:28 | when every element is accepted, filtering returns the input |
| Seqs.FilterIdempotent | src/repo/AsyncStorageExpenseRepository.ts:28 | filtering twice by the same predicate is filtering once |
| Seqs.FilterPermutation | src/hooks/useExpenses.ts:55 | inputs with the same elements filter to results with the same elements |
| Seqs.FilterConcat | src/hooks/useExpenses.ts:55 | filtering distributes over concatenation; it supports `Stats.CategoryCentsIsFilteredSum` |
| Repository.Decode | src/repo/AsyncStorageExpenseRepository.ts:10 | reading the slot fails exactly on unparsable text, and a slot holding no list reads as the empty list |
| Repository.Encode | src/repo/AsyncStorageExpenseRepository.ts:12 | serialising a list; decoding the result gives back the list |
| Repository.ReplaceFirst | src/repo/AsyncStorageExpenseRepository.ts:21-23 | the list `update` writes: same length, and each position holds its old record or `exp` |
| Repository.WithoutId | src/repo/AsyncStorageExpenseRepository.ts:28 | the list `remove` writes: no longer than before and without any record of the id |
| Repository.DecodeCases | src/repo/AsyncStorageExpenseRepository.ts:9-10 | a never-written or empty slot reads as the empty list; reading back a written list gives that list; only unparsable text fails |
| Repository.IndexOfId | src/repo/AsyncStorageExpenseRepository.ts:22 | `findIndex` gives the first position with the id, or -1 exactly when no record has it |
| Repository.ReplaceFirstAtIndex | src/repo/AsyncStorageExpenseRepository.ts:21-24 | assigning `exp` at the found index, when there is one, is replacing the first record with `exp.id` |
| Repository.ReplaceFirstSpec | src/repo/AsyncStorageExpenseRepository.ts:20-25 | `update` keeps the length and every position except the first match, which becomes `exp` |
| Repository.ReplaceFirstAbsent | src/repo/AsyncStorageExpenseRepository.ts:22-24 | `update` with an id no record has leaves the list unchanged |
| Repository.WithoutIdSpec | src/repo/AsyncStorageExpenseRepository.ts:26-29 | `remove` keeps, in their relative order, exactly the records with a different id, each as often as before, and no record with the id |
| Repository.WithoutIdAbsent | src/repo/AsyncStorageExpenseRepository.ts:28 | removing an absent id changes nothing |
| Repository.WithoutIdIdempotent | src/repo/AsyncStorageExpenseRepository.ts:28 | removing the same id twice is removing it once |
| Repository.AsyncStorageRepository.constructor | src/repo/AsyncStorageExpenseRepository.ts:7 | the repository starts over whatever the slot already holds |
| Repository.AsyncStorageRepository.Read | src/repo/AsyncStorageExpenseRepository.ts:8-11 | reading gives the list the slot decodes to, or the parse error |
| Repository.AsyncStorageRepository.Write | src/repo/AsyncStorageExpenseRepository.ts:12 | writing makes the slot hold the serialised list |
| Repository.AsyncStorageRepository.GetAll | src/repo/AsyncStorageExpenseRepository.ts:14 | `getAll` is the read |
| Repository.AsyncStorageRepository.Add | src/repo/AsyncStorageExpenseRepository.ts:15-19 | on a successful read the slot holds the old list with `exp` appended; a read failure is returned and the slot is untouched |
| Repository.AsyncStorageRepository.Update | src/repo/AsyncStorageExpenseRepository.ts:20-25 | on a successful read the slot holds the old list with its first record of `exp.id` replaced (written back even when none matches); a read failure is returned and the slot is untouched |
| Repository.AsyncStorageRepository.Remove | src/repo/AsyncStorageExpenseRepository.ts:26-29 | on a successful read the slot holds the old list without the records of that id; a read failure is returned and the slot is untouched |
| Repository.AsyncStorageRepository.ReplaceAll | src/repo/AsyncStorageExpenseRepository.ts:30 | the slot holds exactly `exps` |
| ExpensesHook.NewestFirstByCalendar | src/hooks/useExpenses.ts:22-23 | in a list sorted newest first by string, no well-formed date is earlier on the calendar than a later one in the list |
| ExpensesHook.InsertLast | src/hooks/useExpenses.ts:23 | one insertion step extends the newest-first prefix by one cell: the first `i + 1` cells are a rearrangement of the old first `i + 1`, and the cells after them are unchanged |
| ExpensesHook.SortNewestFirst | src/hooks/useExpenses.ts:23 | the in-place sort leaves the array non-increasing by `dateISO` and a permutation of what it was; ties are left unordered, as the comparator never answers 0 |
| ExpensesHook.MonthPrefix | src/hooks/useExpenses.ts:54 | the month prefix: `${year}`, then a dash, then at least two month characters |
| ExpensesHook.VisibleOf | src/hooks/useExpenses.ts:51-56 | the derived `visible`: `items` under "All"; under "This Month" no longer than `items` and with every record dated under the month prefix |
| ExpensesHook.PaddedMonth | src/hooks/useExpenses.ts:54 | a month from 1 to 12, zero-padded, is two digits denoting it |
| ExpensesHook.PrefixPieces | src/hooks/useExpenses.ts:55 | a string with a dash at position 4 starts with `y + "-" + m` exactly when its pieces around the dash are `y` and `m` |
| ExpensesHook.YearPiece | src/hooks/useExpenses.ts:54 | for a year from 1000 to 9999, a date's first four characters are `${year}` exactly when its year is `year` |
| ExpensesHook.MonthPiece | src/hooks/useExpenses.ts:54 | a date's month characters are the padded month exactly when its month is that month |
| ExpensesHook.MonthPrefixSelectsMonth | src/hooks/useExpenses.ts:53-55 | a well-formed date starts with the "YYYY-MM" prefix exactly when it falls in that year and month |
| ExpensesHook.VisibleOfSpec | src/hooks/useExpenses.ts:51-56 | under "All" `visible` is `items`; under "This Month" it is the order-preserving subsequence of the records whose date starts with the prefix, each as often as in `items` |
| ExpensesHook.VisibleTotalIgnoresOrder | src/hooks/useExpenses.ts:58 | `totalCents` depends only on which records there are, not on the order the sort left them in |
| ExpensesHook.ExpensesState.constructor | src/hooks/useExpenses.ts:14-16 | the initial state is no items, loading, range "This Month" |
| ExpensesHook.ExpensesState.Refresh | src/hooks/useExpenses.ts:18-26 | on a successful read `items` is the stored list newest first (a permutation of it) and `loading` is false; on a failure `loading` stays true and `items` is unchanged; `range` never changes |
| ExpensesHook.ExpensesState.Add | src/hooks/useExpenses.ts:30-38 | the store gains exactly one record with the given fields and id, appended; then `items` holds the stored list newest first; a read failure changes nothing |
| ExpensesHook.ExpensesState.Remove | src/hooks/useExpenses.ts:40-43 | the store loses the records of that id, then `items` is refreshed from it; a read failure changes nothing |
| ExpensesHook.ExpensesState.Update | src/hooks/useExpenses.ts:45-48 | the store has its first record of `exp.id` replaced, then `items` is refreshed from it; a read failure changes nothing |
| ExpensesHook.ExpensesState.Visible | src/hooks/useExpenses.ts:51-56 | `visible` over the hook's current `items` and `range`, with the same promises as `VisibleOf` |
| ExpensesHook.ExpensesState.TotalCents | src/hooks/useExpenses.ts:58 | `totalCents`: 0 when `visible` is empty, and never negative when no item has a negative amount |
| ExpensesHook.ExpensesState.SetRange | src/hooks/useExpenses.ts:16 | only `range` changes |
| Stats.FirstSeen | src/hooks/useStats.ts:7-8 | the Map's key order holds each category of the input exactly once, and no other category |
| Stats.CategoryCents | src/hooks/useStats.ts:8 | the sum the Map holds for a category; with no negative amounts it lies between 0 and the grand total |
| Stats.Breakdown | src/hooks/useStats.ts:6-10 | what `byCategory` computes in cents: one entry per first-seen category with its sum; empty exactly when the input is |
| Stats.FirstPosition | src/hooks/useStats.ts:8 | the first index of a record of a category, or the length if none has it |
| Stats.Totals | src/hooks/useStats.ts:10 | one entry per key in key order, each with the sum over its records |
| Stats.Accumulate | src/hooks/useStats.ts:7-8 | after the loop the Map's keys, in insertion order, are the categories in first-occurrence order, and each key maps to the sum over its records |
| Stats.AddRecord | src/hooks/useStats.ts:8 | one iteration of the loop keeps the map's keys and sums in step with the records seen so far |
| Stats.GroupStep | src/hooks/useStats.ts:8 | the loop state after one more record describes one record more |
| Stats.GroupStepKeys | src/hooks/useStats.ts:8 | the key order after one more record is the first-seen order of the longer prefix |
| Stats.GroupStepSums | src/hooks/useStats.ts:8 | the sums after one more record are the sums over the longer prefix |
| Stats.GroupedAll | src/hooks/useStats.ts:7-8 | after the last record the loop's keys and sums describe the whole input |
| Stats.ByCategory | src/hooks/useStats.ts:6-11 | the entries, in cents, are the breakdown: per first-seen category, its summed cents |
| Stats.PrefixStep | src/hooks/useStats.ts:8 | one more loop iteration adds the record's category at the end if it is new, and adds its amount to that category's sum |
| Stats.CategoryCentsAbsent | src/hooks/useStats.ts:8 | a category no record has sums to 0, which is why `map.get(...) ?? 0` is the right start |
| Stats.FirstSeenOrder | src/hooks/useStats.ts:7-10 | earlier keys first occur earlier in the input |
| Stats.FirstPositionPrefix | src/hooks/useStats.ts:8 | a category's first position in a prefix is its first position overall, if that lies in the prefix |
| Stats.SliceCentsStep | src/hooks/useStats.ts:8 | one more record raises the sum over distinct categories by its amount exactly when its category is among them |
| Stats.BreakdownTotal | src/hooks/useStats.ts:8-14 | the per-category totals add up to the grand total: no record is lost or counted twice |
| Stats.CategoryCentsIsFilteredSum | src/hooks/useStats.ts:8 | a category's running sum equals the sum over `filter` of its records |
| Stats.BreakdownCategories | src/hooks/useStats.ts:7-10 | a category has an entry exactly when some record has it, and never two entries |
| Stats.BreakdownOrder | src/hooks/useStats.ts:7-10 | entries come in the order their categories first occur in the input |
| Stats.BreakdownCents | src/hooks/useStats.ts:8 | each entry's cents are the sum over the records of its category |
| Stats.BreakdownEmpty | src/hooks/useStats.ts:10-14 | an empty input gives no entries and a total of 0 |
| Scenario.OnlyOrder | src/hooks/useExpenses.ts:23 | the Coffee record (2025-08-24) and the Bus record (2025-08-20) can only be sorted Coffee first, then Bus |
| Scenario.AugustPrefix | src/hooks/useExpenses.ts:54 | the prefix for August 2025 is "2025-08" |
| Scenario.BothInAugust | src/hooks/useExpenses.ts:55 | two August 2025 records are both kept by the "This Month" filter |
| Scenario.PairTotal | src/hooks/useExpenses.ts:58 | 450 and 250 cents total 700 |
| Scenario.FoodThenTransport | src/hooks/useStats.ts:7-10 | a Food record then a Transport record break down as Food first, then Transport, each with its own amount |

## Left out

- Floating point: the `/ 100` for the chart and for `topLine.total`, the `Math.max(..., 0.01)` clamp, and every `toFixed` and money formatting. The model stays in integer cents.
- JavaScript numbers: they are modelled as unbounded integers, so sums beyond 2^53, where addition stops being exact, are not modelled.
- Storage I/O:
  - `AsyncStorage.getItem` and `setItem` are modelled as reading and assigning the slot field. A failure of `setItem` is not modelled.
  - A rejection of `getItem` itself is not modelled. The only read failure is a `Malformed` slot, which fails on every read until it is overwritten, so a read that fails once and then succeeds is not represented.
  - `JSON.stringify` and `JSON.parse` are modelled as the identity on lists. Text that parses to something other than a list of expenses (such as `null`, after which `add`, `update`, `remove` and `refresh` throw) is not represented; unparsable text is the `Malformed` slot.
- Shared storage: every repository instance uses the one key `"EXPENSES_V1"`, so two instances read and write the same stored list. The model gives each instance its own slot, so two repositories over one storage are not represented.
- Concurrency: async interleaving and the lost update between concurrent read-modify-write calls are left out. Every operation runs to completion before the next starts.
- The clock and the id generator (`new Date()`, `makeId` with `Date.now` and `Math.random`) are parameters: the current year and month, and the fresh id.
- The debug re-read and `console.log` in the hook's `add` are left out because they do not affect state. The refresh on mount (`useEffect`) is left out too; it is a call of `Refresh`.
- React itself is left out: memoisation, render cycles, and the setters' batching. `setLoading(true)` followed by the read is one method, so "loading while refresh runs" is seen only when the read fails.
- The `ExpenseRepository` interface is left out. The hook is modelled over the concrete storage repository.
- Categories are enumerated; their string spellings are not modelled.
- Strings are sequences of characters. JavaScript compares UTF-16 code units, which agrees with this on the ASCII dates used here.
- ExpensesHook.MonthPrefixSelectsMonth: proved only for years 1000 to 9999 and months 1 to 12. For other years, `${year}` is not four characters, so the prefix does not have the "YYYY-MM" shape.
- ExpensesHook.ExpensesState.Refresh: does not fix the order of records with the same date.
- ExpensesHook.SortNewestFirst: assumes the engine's sort still orders the records by date. For two records of the same date the comparator answers -1 in both orders, so it is not a consistent comparator, and ECMAScript then leaves the whole output order implementation-defined, not only the order among ties. The model promises newest first and a permutation, which is what a sort that treats the comparator as "later date first" produces.
- Presentation (screens, components, chart colours) is outside the core and not part of this model.
