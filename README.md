# SpendBee in Dafny

SpendBee turns an uploaded bank statement (CSV or PDF) into an analysis. The server
extracts the statement's text, asks a language model for a JSON summary, and returns
it. The React dashboard then lists, filters and charts the transactions. This project
models the logic inside that flow and proves what it guarantees:

- the server side: line normalisation of the uploaded text, the CORS allow-list and
  origin decision, and the `/api/upload` decision tree of both servers
  (`src/server.ts`, with CI and CORS branches, and `spendbee/src/server.ts`, without);
- the upload panel: the three pieces of state `file`, `error` and `analysis`, and the
  handlers that change them (a Dafny `class`);
- the transaction list: the statement-month cut-off, the category options, and the
  filter pipeline followed by the sort the controls select;
- the income and spending doughnuts: the per-category totals, the colour assignment,
  and the share and angle bookkeeping of the hexagon chart;
- spending over time: the per-date totals and the chronologically sorted series;
- the overview card: its colour and sign rule and the displayed magnitude.

Amounts are `real`. `new Date(s).getTime()` is a parameter `parse: string -> Option<int>`
(`None` for an invalid date). The first instant of a timestamp's month is a parameter
`monthStart`, and `number.toString()` is a parameter `showAmount`. The libraries the
handlers call are parameters too:
- `buffer.toString("utf-8")` is `decodeUtf8`;
- `pdf-parse` is `extractPdf`;
- the chat completion call is `complete`;
- `JSON.parse` is `parseJson`.

A call that may throw returns an `Attempt`.

JavaScript objects used as dictionaries (`incomeTotals`, `spendingTotals`, `grouped`)
are insertion-ordered association lists (`Tally.Table`). Each is specified by
`Tally.Group`, which lists the distinct keys in first-occurrence order, each with the
sum of its contributions. `Array.prototype.sort` is stable, and is modelled by one
stable insertion sort, `Sorting.SortBy`.

Modules and files:
- `wrappers.dfy` (Option), `strings.dfy`, `seqs.dfy`, `sorting.dfy`, `tally.dfy`: the
  string and sequence operations the source uses (`trim`, `split`, `join`,
  `toLowerCase`, `includes`, `filter`, `new Set`, `sort`, dictionary update).
- `analysis.dfy`: the category unions, `Transaction`, `SpendBeeAnalysis`, and the mock
  analysis the end-to-end tests replay.
- `transactions.dfy`, `doughnuts.dfy`, `spending_over_time.dfy`, `overview_card.dfy`: the
  dashboard.
- `lines.dfy`, `upload_endpoint.dfy`, `server.dfy`, `spendbee_server.dfy`: the servers.
- `upload.dfy`: the upload panel.

## Model

| member | source | states |
|---|---|---|
| Analysis.IncomeCategoryOf | spendbee/src/types/analysis.ts:2-7 | a string reads as an income category exactly when it is one of the five income names, and then the category's name is that string |
| Analysis.SpendingCategoryOf | spendbee/src/types/analysis.ts:9-17 | a string reads as a spending category exactly when it is one of the eight spending names, and then the category's name is that string |
| Analysis.CategoryNamesRoundTrip | spendbee/src/types/analysis.ts:2-17 | every income and spending category reads back as itself from its name |
| Analysis.Abs | spendbee/src/frontend/components/dashboard/IncomeSpendingDoughnuts.tsx:369 | `Math.abs` is non-negative and equals the value or its negation |
| Strings.TrimStart | src/server.ts:101 | the result is a suffix of the input; everything removed is whitespace; the result does not start with whitespace |
| Strings.TrimEnd | src/server.ts:101 | the result is a prefix of the input; everything removed is whitespace; the result does not end with whitespace |
| Strings.Trim | src/server.ts:101 | `trim()` yields a trimmed contiguous piece of the input, everything before and after it being whitespace |
| Strings.TrimIdempotent | src/server.ts:101 | trimming twice is trimming once |
| Strings.TrimTrimmed | src/server.ts:101 | a string with no leading or trailing whitespace is left unchanged by `trim()` |
| Strings.Split | src/server.ts:99-100 | `split` yields at least one piece and no piece contains the separator |
| Strings.JoinSplit | src/server.ts:99-104 | joining the pieces of a split with the same separator restores the input |
| Strings.SplitJoin | src/server.ts:99-104 | splitting a join of separator-free pieces restores the pieces |
| Strings.SplitPiece | src/server.ts:99-100 | a separator-free head followed by the separator splits into that head and the split of the rest |
| Strings.SplitWhole | src/server.ts:99-100 | a string without the separator splits into itself alone |
| Strings.Lower | spendbee/src/frontend/components/dashboard/Transactions.tsx:69-74 | `toLowerCase` keeps the length and lower-cases each character |
| Strings.LowerIdempotent | spendbee/src/frontend/components/dashboard/Transactions.tsx:69-74 | lower-casing twice is lower-casing once |
| Strings.LowerUpper | spendbee/src/frontend/components/dashboard/Transactions.tsx:21 | lower-casing ignores a previous upper-casing; each case mapping is idempotent |
| Strings.ContainsWindow | spendbee/src/frontend/components/dashboard/Transactions.tsx:72-75 | `includes` holds only when the term occurs at some position of the string |
| Strings.WindowContains | spendbee/src/frontend/components/dashboard/Transactions.tsx:72-75 | an occurrence of the term at any position makes `includes` hold |
| Seqs.Filter | spendbee/src/frontend/components/dashboard/Transactions.tsx:52-81 | `filter` keeps only elements satisfying the predicate, drawn from the input without repetition beyond it |
| Seqs.FilterComplete | spendbee/src/frontend/components/dashboard/Transactions.tsx:52-81 | every input element satisfying the predicate is kept |
| Seqs.FilterKeeps | spendbee/src/frontend/components/dashboard/Transactions.tsx:52-81 | a given input element satisfying the predicate is kept |
| Seqs.FilterCount | src/server.ts:102 | `filter` keeps every copy of an element that satisfies the condition |
| Seqs.FilterKeepsAll | src/server.ts:102 | a property true of every input element is true of every kept element |
| Seqs.FilterSubsequence | spendbee/src/frontend/components/dashboard/Transactions.tsx:52-81 | `filter` keeps the input's relative order |
| Seqs.FilterAppend | spendbee/src/frontend/components/dashboard/Transactions.tsx:52-81 | filtering a list with one more element adds that element at the end exactly when it satisfies the predicate |
| Seqs.FilterAll | spendbee/src/frontend/components/dashboard/Transactions.tsx:52-81 | when every element satisfies the predicate, `filter` returns the input |
| Seqs.FilterExt | spendbee/src/frontend/components/dashboard/Transactions.tsx:52-81 | predicates that agree everywhere filter alike |
| Seqs.FilterTwice | spendbee/src/frontend/components/dashboard/Transactions.tsx:52-81 | two filters in a row equal one filter by their conjunction |
| Seqs.SubsequenceCons | spendbee/src/frontend/components/dashboard/Transactions.tsx:52-81 | a subsequence of a tail is a subsequence of the whole list |
| Seqs.IndexOf | spendbee/src/frontend/components/dashboard/Transactions.tsx:44 | the index returned holds the element and is its first occurrence |
| Seqs.IndexOfPrefix | spendbee/src/frontend/components/dashboard/Transactions.tsx:44 | appending elements does not move an element's first occurrence |
| Seqs.Dedupe | spendbee/src/frontend/components/dashboard/Transactions.tsx:44 | `Array.from(new Set(xs))` has exactly the elements of `xs`, each once |
| Seqs.DedupeOrder | spendbee/src/frontend/components/dashboard/Transactions.tsx:44 | the distinct elements come in first-occurrence order |
| Seqs.DedupeDistinct | spendbee/src/frontend/components/dashboard/Transactions.tsx:44 | a list without duplicates is returned unchanged |
| Seqs.SumAppend | spendbee/src/frontend/components/dashboard/SpendingOverTime.tsx:49 | the sum of a concatenation is the sum of the sums |
| Seqs.SumOfAppend | spendbee/src/frontend/components/dashboard/SpendingOverTime.tsx:49 | the same, for a sum of a function over the elements |
| Seqs.SumOfPermutation | spendbee/src/frontend/components/dashboard/SpendingOverTime.tsx:45-49 | reordering the elements does not change a sum over them |
| Seqs.SumMapped | spendbee/src/frontend/components/dashboard/SpendingOverTime.tsx:49 | summing a mapped list equals summing the function over the original list |
| Seqs.DistinctCount | spendbee/src/frontend/components/dashboard/SpendingOverTime.tsx:45-47 | an element occurs at most once in a list without duplicates |
| Seqs.CountTwo | spendbee/src/frontend/components/dashboard/SpendingOverTime.tsx:45-47 | an element at two positions occurs at least twice |
| Seqs.PermutationDistinct | spendbee/src/frontend/components/dashboard/SpendingOverTime.tsx:45-47 | a reordering of a list without duplicates has none |
| Sorting.Insert | spendbee/src/frontend/components/dashboard/Transactions.tsx:85-102 | inserting adds exactly the one element |
| Sorting.InsertSorted | spendbee/src/frontend/components/dashboard/Transactions.tsx:85-102 | inserting into a sorted list keeps it sorted |
| Sorting.SortBy | spendbee/src/frontend/components/dashboard/Transactions.tsx:85-102 | sorting by a key yields a permutation of the input ordered by the key in the chosen direction |
| Sorting.WithKeyCons | spendbee/src/frontend/components/dashboard/Transactions.tsx:85-102 | the elements of a list with a given key are the head's, if it has that key, followed by the tail's |
| Sorting.WithKeyInsert | spendbee/src/frontend/components/dashboard/Transactions.tsx:85-102 | inserting never overtakes an element with the same key |
| Sorting.SwapHeads | spendbee/src/frontend/components/dashboard/Transactions.tsx:85-102 | moving an element past one with a different key leaves the elements of any single key in the same order |
| Sorting.SortByStable | spendbee/src/frontend/components/dashboard/Transactions.tsx:85-102 | the sort is stable: elements with equal keys keep their relative order |
| Sorting.SortByStableAll | spendbee/src/frontend/components/dashboard/Transactions.tsx:85-102 | stability for every key value at once |
| Sorting.SortBySorted | spendbee/src/frontend/components/dashboard/Transactions.tsx:85-102 | sorting an already sorted list leaves it unchanged |
| Tally.Keys | spendbee/src/frontend/components/dashboard/IncomeSpendingDoughnuts.tsx:373 | `Object.entries` lists the keys in table order |
| Tally.GroupOn | spendbee/src/frontend/components/dashboard/IncomeSpendingDoughnuts.tsx:356-371 | a table over given keys has exactly those keys in that order |
| Tally.Group | spendbee/src/frontend/components/dashboard/IncomeSpendingDoughnuts.tsx:356-371 | the grouped table's keys are the distinct contribution keys in first-occurrence order, each once |
| Tally.GetGroup | spendbee/src/frontend/components/dashboard/IncomeSpendingDoughnuts.tsx:361-362 | a key's entry in the grouped table is the sum of that key's contributions, 0 when absent |
| Tally.SumForAbsent | spendbee/src/frontend/components/dashboard/IncomeSpendingDoughnuts.tsx:361-362 | a key with no contribution sums to 0, the default an absent key reads as |
| Tally.SumForAppend | spendbee/src/frontend/components/dashboard/IncomeSpendingDoughnuts.tsx:361-362 | one more contribution adds its amount to its own key's sum only |
| Tally.DedupeKeysAppend | spendbee/src/frontend/components/dashboard/IncomeSpendingDoughnuts.tsx:361-362 | one more contribution appends its key only if the key is new |
| Tally.GroupAppend | spendbee/src/frontend/components/dashboard/IncomeSpendingDoughnuts.tsx:361-362 | the source's in-place update of one key on the grouped table equals grouping one more contribution |
| Tally.GroupOnAppendSeen | spendbee/src/frontend/components/dashboard/IncomeSpendingDoughnuts.tsx:361-362 | updating a key already present changes only that key's sum |
| Tally.GroupOnAppendNew | spendbee/src/frontend/components/dashboard/IncomeSpendingDoughnuts.tsx:361-362 | updating an absent key appends it with the amount |
| Tally.TotalAdd | spendbee/src/frontend/components/dashboard/IncomeSpendingDoughnuts.tsx:361-362 | an update raises the table's total by exactly the amount |
| Tally.TotalUpdate | spendbee/src/frontend/components/dashboard/IncomeSpendingDoughnuts.tsx:361-362 | replacing one entry changes the total by the difference of the values |
| Tally.TotalGroup | spendbee/src/frontend/components/dashboard/IncomeSpendingDoughnuts.tsx:356-371 | the grouped table's total is the sum of all contributions |
| Tally.TotalGroupOn | spendbee/src/frontend/components/dashboard/IncomeSpendingDoughnuts.tsx:356-371 | a table's total is the sum, over its keys, of each key's contributions |
| Tally.SumForPositive | spendbee/src/frontend/components/dashboard/IncomeSpendingDoughnuts.tsx:356-371 | with positive contributions, every present key sums to more than 0 |
| Tally.GroupPositive | spendbee/src/frontend/components/dashboard/IncomeSpendingDoughnuts.tsx:356-371 | with positive contributions, every table entry is positive |
| Tally.GroupSingle | spendbee/src/frontend/components/dashboard/IncomeSpendingDoughnuts.tsx:356-371 | one contribution groups into a one-entry table |
| Tally.Contributions | spendbee/src/frontend/components/dashboard/IncomeSpendingDoughnuts.tsx:356-371 | the contributions are the kept rows' entries, one per kept row, in order |
| Tally.ContributionsAppend | spendbee/src/frontend/components/dashboard/IncomeSpendingDoughnuts.tsx:356-371 | one more row adds its entry exactly when the row is kept |
| Doughnuts.IncomeContributions | spendbee/src/frontend/components/dashboard/IncomeSpendingDoughnuts.tsx:357-362 | every income contribution is an income category with a positive amount |
| Doughnuts.SpendingContributions | spendbee/src/frontend/components/dashboard/IncomeSpendingDoughnuts.tsx:363-369 | every spending contribution is a spending category with a positive magnitude |
| Doughnuts.IncomeContributionsAppend | spendbee/src/frontend/components/dashboard/IncomeSpendingDoughnuts.tsx:357-362 | a row contributes its amount to income exactly when it is positive and income-categorised |
| Doughnuts.SpendingContributionsAppend | spendbee/src/frontend/components/dashboard/IncomeSpendingDoughnuts.tsx:363-369 | a row contributes `Math.abs(amount)` to spending exactly when it is negative and spending-categorised |
| Doughnuts.AddRow | spendbee/src/frontend/components/dashboard/IncomeSpendingDoughnuts.tsx:357-370 | one `forEach` step updates the income table, the spending table, or neither, as the `if`/`else if` decides |
| Doughnuts.CategoryTotals | spendbee/src/frontend/components/dashboard/IncomeSpendingDoughnuts.tsx:353-371 | after the loop, `incomeTotals` and `spendingTotals` are the groupings of the income and spending contributions |
| Doughnuts.EmptyPrefix | spendbee/src/frontend/components/dashboard/IncomeSpendingDoughnuts.tsx:353-354 | before any row both tables are empty |
| Doughnuts.PrefixStep | spendbee/src/frontend/components/dashboard/IncomeSpendingDoughnuts.tsx:356-371 | the tables after row i are the tables before it updated by that row |
| Doughnuts.IncomeStep | spendbee/src/frontend/components/dashboard/IncomeSpendingDoughnuts.tsx:357-362 | grouping one more row's income equals the source's in-place update |
| Doughnuts.SpendingStep | spendbee/src/frontend/components/dashboard/IncomeSpendingDoughnuts.tsx:363-369 | grouping one more row's spending equals the source's in-place update |
| Doughnuts.IncomeFacts | spendbee/src/frontend/components/dashboard/IncomeSpendingDoughnuts.tsx:356-371 | the income table has distinct keys, all income categories, positive values, and totals the income contributions |
| Doughnuts.SpendingFacts | spendbee/src/frontend/components/dashboard/IncomeSpendingDoughnuts.tsx:356-371 | the spending table has distinct keys, all spending categories, positive values, and totals the spending contributions |
| Doughnuts.ZeroAmountIgnored | spendbee/src/frontend/components/dashboard/IncomeSpendingDoughnuts.tsx:358-364 | a zero amount changes neither table |
| Doughnuts.IncomeSumAll | spendbee/src/frontend/components/dashboard/IncomeSpendingDoughnuts.tsx:356-371 | when positive rows carry income categories, income contributions sum to the positive amounts |
| Doughnuts.IncomeChartMatchesStatement | spendbee/src/frontend/components/dashboard/IncomeSpendingDoughnuts.tsx:356-371 | when positive rows carry income categories, the income table totals the sum of positive amounts |
| Doughnuts.SpendingSumAll | spendbee/src/frontend/components/dashboard/IncomeSpendingDoughnuts.tsx:356-371 | when negative rows carry spending categories, spending contributions sum to the magnitude of the negative amounts |
| Doughnuts.SpendingChartMatchesStatement | spendbee/src/frontend/components/dashboard/IncomeSpendingDoughnuts.tsx:356-371 | when negative rows carry spending categories, the spending table totals the magnitude of the negative amounts |
| Doughnuts.SumAllAppend | spendbee/src/frontend/components/dashboard/IncomeSpendingDoughnuts.tsx:356-371 | appending at most one contribution adds its amount to the sum |
| Doughnuts.MockIncomeTotals | tests/mocks/openaiResponse.ts:19-32 | the mock statement's income table is salary 500 |
| Doughnuts.MockSpendingTotals | tests/mocks/openaiResponse.ts:19-32 | the mock statement's spending table is groceries 150 |
| Doughnuts.OneContribution | tests/mocks/openaiResponse.ts:19-32 | of two rows of which exactly one is kept, the contributions are that row's entry |
| Doughnuts.ChartData | spendbee/src/frontend/components/dashboard/IncomeSpendingDoughnuts.tsx:373-384 | one slice per table entry, same label and value, entry i coloured `COLORS[i % 8]` |
| Doughnuts.PaletteDistinct | spendbee/src/frontend/components/dashboard/IncomeSpendingDoughnuts.tsx:54-63 | the eight colours are distinct |
| Doughnuts.ChartColoursCycle | spendbee/src/frontend/components/dashboard/IncomeSpendingDoughnuts.tsx:373-384 | slices fewer than eight apart have different colours, and colours repeat with period eight |
| Doughnuts.Sweep | spendbee/src/frontend/components/dashboard/IncomeSpendingDoughnuts.tsx:86-87 | a segment's angle is positive and at most a full turn, at least the share of a full turn, and is that share, the 0.01 minimum or a full turn |
| Doughnuts.HexagonAngles | spendbee/src/frontend/components/dashboard/IncomeSpendingDoughnuts.tsx:73-79 | six hexagon angles from -π/2, a sixth of a turn apart, closing the circle |
| Doughnuts.SegmentAtBounds | spendbee/src/frontend/components/dashboard/IncomeSpendingDoughnuts.tsx:86-110 | each segment ends after it starts, within a full turn, and a wedge's large-arc flag is 1 exactly when its angle exceeds π |
| Doughnuts.SegmentsMeet | spendbee/src/frontend/components/dashboard/IncomeSpendingDoughnuts.tsx:84-128 | each segment starts where the previous one ends |
| Doughnuts.SegmentsFrom | spendbee/src/frontend/components/dashboard/IncomeSpendingDoughnuts.tsx:81-129 | the `forEach` pushes one segment per slice, the i-th being the segment the running angle gives |
| Doughnuts.CreateHexagonSegments | spendbee/src/frontend/components/dashboard/IncomeSpendingDoughnuts.tsx:65-132 | six hexagon angles; one segment per slice in order, starting at -π/2, contiguous, with positive angles and the large-arc rule |
| Doughnuts.ShareSumScaled | spendbee/src/frontend/components/dashboard/IncomeSpendingDoughnuts.tsx:71-85 | the shares of the first n slices, times the total, are those slices' values |
| Doughnuts.PercentTotalPrefix | spendbee/src/frontend/components/dashboard/IncomeSpendingDoughnuts.tsx:85-124 | the first n percentages sum to 100 times the first n shares |
| Doughnuts.PercentagesSumTo100 | spendbee/src/frontend/components/dashboard/IncomeSpendingDoughnuts.tsx:71-124 | with a non-zero total, the stored percentages sum to 100 |
| Doughnuts.SharesSumToOne | spendbee/src/frontend/components/dashboard/IncomeSpendingDoughnuts.tsx:71-85 | with a non-zero total the shares of all slices add up to one |
| Doughnuts.UnitFromScaled | spendbee/src/frontend/components/dashboard/IncomeSpendingDoughnuts.tsx:85 | a share that scales the total to itself is 1 |
| Doughnuts.SliceTotalAppend | spendbee/src/frontend/components/dashboard/IncomeSpendingDoughnuts.tsx:71 | the total of a concatenation is the sum of the totals |
| Doughnuts.SliceTotalNonNegative | spendbee/src/frontend/components/dashboard/IncomeSpendingDoughnuts.tsx:71 | with non-negative values the total is non-negative, zero exactly when all values are, and at least each value |
| Doughnuts.SliceTotalWithout | spendbee/src/frontend/components/dashboard/IncomeSpendingDoughnuts.tsx:71 | the total is one slice's value plus the total of the others |
| Doughnuts.Others | spendbee/src/frontend/components/dashboard/IncomeSpendingDoughnuts.tsx:71 | the other slices are the list with slice i removed, in order |
| Doughnuts.OthersZero | spendbee/src/frontend/components/dashboard/IncomeSpendingDoughnuts.tsx:71 | the other slices are non-negative, and all zero exactly when every slice but i is zero |
| Doughnuts.ShareAtLeastOne | spendbee/src/frontend/components/dashboard/IncomeSpendingDoughnuts.tsx:85-87 | with a positive total, a share reaches 1 exactly when its value reaches the total |
| Doughnuts.ShareAtMostOne | spendbee/src/frontend/components/dashboard/IncomeSpendingDoughnuts.tsx:85 | a value between 0 and the total has a share between 0 and 1 |
| Doughnuts.FullCircleIffAlone | spendbee/src/frontend/components/dashboard/IncomeSpendingDoughnuts.tsx:97-104 | a slice is drawn as a full circle exactly when every other slice is zero |
| Doughnuts.SweepsCoverShares | spendbee/src/frontend/components/dashboard/IncomeSpendingDoughnuts.tsx:86-128 | the angle swept by the first n segments is at least their shares of a full turn |
| Doughnuts.SweepsMatchShares | spendbee/src/frontend/components/dashboard/IncomeSpendingDoughnuts.tsx:86-128 | when no slice falls under the minimum, the swept angle is exactly the shares of a full turn |
| Doughnuts.ChartClosesCircle | spendbee/src/frontend/components/dashboard/IncomeSpendingDoughnuts.tsx:82-129 | the last segment ends at or beyond a full turn from -π/2, exactly there when no slice falls under the minimum |
| Doughnuts.SingleSliceChart | spendbee/src/frontend/components/dashboard/IncomeSpendingDoughnuts.tsx:85-124 | a single positive category is an amber full circle at 100% |
| SpendingOverTime.DateContributions | spendbee/src/frontend/components/dashboard/SpendingOverTime.tsx:39-43 | every per-date contribution is positive |
| SpendingOverTime.DateContributionsAppend | spendbee/src/frontend/components/dashboard/SpendingOverTime.tsx:39-43 | a row contributes `Math.abs(amount)` under its date exactly when its amount is negative |
| SpendingOverTime.DateContributionKeys | spendbee/src/frontend/components/dashboard/SpendingOverTime.tsx:39-43 | a date has a contribution exactly when some row on that date spends |
| SpendingOverTime.GroupByDate | spendbee/src/frontend/components/dashboard/SpendingOverTime.tsx:37-43 | after the loop, `grouped` is the grouping of the per-date contributions |
| SpendingOverTime.DateStep | spendbee/src/frontend/components/dashboard/SpendingOverTime.tsx:41 | grouping one more row equals the in-place update of `grouped` |
| SpendingOverTime.PrefixStep | spendbee/src/frontend/components/dashboard/SpendingOverTime.tsx:39-43 | the table after row i is the table before it updated by that row |
| SpendingOverTime.SpendingSeries | spendbee/src/frontend/components/dashboard/SpendingOverTime.tsx:36-52 | labels are the spent-on dates, distinct and chronological; each value is that date's spending, positive; values total the negative amounts' magnitude |
| SpendingOverTime.SeriesLabelsAndValues | spendbee/src/frontend/components/dashboard/SpendingOverTime.tsx:45-49 | the labels are exactly the dates spent on and every value is positive |
| SpendingOverTime.SeriesValues | spendbee/src/frontend/components/dashboard/SpendingOverTime.tsx:49 | each value looked up for a spent-on date is positive |
| SpendingOverTime.LookupsAreSums | spendbee/src/frontend/components/dashboard/SpendingOverTime.tsx:49 | `grouped[label]` is the sum of that label's contributions |
| SpendingOverTime.SeriesLabels | spendbee/src/frontend/components/dashboard/SpendingOverTime.tsx:45-47 | a date is a label exactly when some row spends on it |
| SpendingOverTime.SeriesDistinct | spendbee/src/frontend/components/dashboard/SpendingOverTime.tsx:45-47 | labels are distinct |
| SpendingOverTime.SeriesChronological | spendbee/src/frontend/components/dashboard/SpendingOverTime.tsx:45-47 | labels with valid dates are in non-decreasing timestamp order |
| SpendingOverTime.SeriesPositive | spendbee/src/frontend/components/dashboard/SpendingOverTime.tsx:41 | a spent-on date has positive spending |
| SpendingOverTime.DateContributionsTotal | spendbee/src/frontend/components/dashboard/SpendingOverTime.tsx:39-43 | the per-date contributions sum to the magnitude of the negative amounts |
| SpendingOverTime.SeriesTotal | spendbee/src/frontend/components/dashboard/SpendingOverTime.tsx:39-49 | the values sum to the magnitude of the negative amounts |
| OverviewCard.Card | spendbee/src/frontend/components/dashboard/OverviewCard.tsx:10-35 | colour positive/negative/neutral by the value's sign only on a net-change card; "+"/"−" only on a net-change card with `showSign`; magnitude is the absolute value |
| OverviewCard.SignedCardReadsBack | spendbee/src/frontend/components/dashboard/OverviewCard.tsx:26-35 | on a signed net-change card, sign and magnitude together give back the value |
| OverviewCard.OtherCardsUnsigned | spendbee/src/frontend/components/dashboard/OverviewCard.tsx:18-35 | any other card is neutral, unsigned and shows the absolute value |
| OverviewCard.DefaultUnsigned | spendbee/src/frontend/components/dashboard/OverviewCard.tsx:14-27 | `showSign` defaults to false, so a card without it shows no sign |
| OverviewCard.NetChangeIgnoresCase | spendbee/src/frontend/components/dashboard/OverviewCard.tsx:16 | the net-change test ignores case, and holds for "Net Change" |
| OverviewCard.MockNetChange | spendbee/src/frontend/components/dashboard/Overview.tsx:15-20 | the mock analysis's net change card is negative, signed "−", £150 |
| TransactionList.CapitaliseFirst | spendbee/src/frontend/components/dashboard/Transactions.tsx:19-22 | the empty string stays empty; otherwise the same length, the first character upper-cased and the rest unchanged |
| TransactionList.CapitaliseFirstIdempotent | spendbee/src/frontend/components/dashboard/Transactions.tsx:19-22 | capitalising twice is capitalising once, and it does not change the lower-cased text |
| TransactionList.CategoryColumn | spendbee/src/frontend/components/dashboard/Transactions.tsx:44 | `transactions.map(t => t.category)` |
| TransactionList.Categories | spendbee/src/frontend/components/dashboard/Transactions.tsx:43-45 | the options are distinct, include every row's category, contain nothing else, and come in first-occurrence order |
| TransactionList.CategoriesPresent | spendbee/src/frontend/components/dashboard/Transactions.tsx:44 | every row's category is an option and every option is some row's category |
| TransactionList.LatestFromValid | spendbee/src/frontend/components/dashboard/Transactions.tsx:35-38 | a reduce seeded with a valid date returns the largest valid date, one that occurs or is the seed |
| TransactionList.LatestFromInvalid | spendbee/src/frontend/components/dashboard/Transactions.tsx:35-38 | a reduce seeded with an invalid date stays invalid, since `d > NaN` is false |
| TransactionList.StartOfMonth | spendbee/src/frontend/components/dashboard/Transactions.tsx:32-41 | `null` exactly when there are no transactions |
| TransactionList.StartOfMonthInvalidFirst | spendbee/src/frontend/components/dashboard/Transactions.tsx:35-40 | when the first date does not parse, the cut-off is an invalid date whatever follows |
| TransactionList.FirstValidDate | spendbee/src/frontend/components/dashboard/Transactions.tsx:35-38 | the first parseable date exists exactly when some date parses, and it is one of them |
| TransactionList.StartOfMonthCorrectedMeaning | spendbee/src/frontend/components/dashboard/Transactions.tsx:32-41 | corrected cut-off: `null` exactly when empty; invalid when no date parses; otherwise the month start of the latest valid date |
| TransactionList.StartOfMonthAgrees | spendbee/src/frontend/components/dashboard/Transactions.tsx:32-41 | when the first date parses, the corrected and written cut-offs agree |
| TransactionList.Selected | spendbee/src/frontend/components/dashboard/Transactions.tsx:50-82 | the four filters keep exactly the rows all of them accept, drawn from the input |
| TransactionList.ZeroOnlyUnderAll | spendbee/src/frontend/components/dashboard/Transactions.tsx:59-65 | a zero amount passes the flow filter only under "all" |
| TransactionList.SearchIgnoresCase | spendbee/src/frontend/components/dashboard/Transactions.tsx:68-76 | searching for a term and for its lower-cased form keep the same rows |
| TransactionList.SearchFindsDescription | spendbee/src/frontend/components/dashboard/Transactions.tsx:68-76 | a row whose lower-cased description holds the lower-cased term passes the search |
| TransactionList.MonthFilterNeedsValidDate | spendbee/src/frontend/components/dashboard/Transactions.tsx:51-56 | a row kept by the month filter has a valid date at or after the cut-off |
| TransactionList.MonthStep | spendbee/src/frontend/components/dashboard/Transactions.tsx:51-56 | the month step, applied only when there is a cut-off, equals one filter |
| TransactionList.FlowStep | spendbee/src/frontend/components/dashboard/Transactions.tsx:59-65 | the two flow `if`s after the month step equal one filter by both conditions |
| TransactionList.SearchStep | spendbee/src/frontend/components/dashboard/Transactions.tsx:68-77 | the search step after the flow step equals one filter by all three conditions |
| TransactionList.CategoryStep | spendbee/src/frontend/components/dashboard/Transactions.tsx:80-82 | the category step after the search step gives the selected rows |
| TransactionList.SortRows | spendbee/src/frontend/components/dashboard/Transactions.tsx:85-102 | the rows are reordered only: unchanged for "none", otherwise sorted by amount or timestamp in the option's direction, stably |
| TransactionList.FilteredTransactions | spendbee/src/frontend/components/dashboard/Transactions.tsx:47-105 | the result is a permutation of the selected rows, in input order for "none" and otherwise sorted stably; every row passes all filters |
| TransactionList.ReorderedRowsKept | spendbee/src/frontend/components/dashboard/Transactions.tsx:84-102 | any reordering of the selected rows still passes all filters |
| TransactionList.TransactionsView | spendbee/src/frontend/components/dashboard/Transactions.tsx:24-105 | options are the categories; rows permute the selection under the corrected cut-off; initially every row on the latest date is shown |
| TransactionList.LatestRowKept | spendbee/src/frontend/components/dashboard/Transactions.tsx:30-105 | under the initial controls and the corrected cut-off, a row on the latest valid date is shown |
| TransactionList.InvalidFirstDateHidesAll | spendbee/src/frontend/components/dashboard/Transactions.tsx:35-56 | as written, a statement whose first date is invalid shows no rows, even one with a valid date |
| TransactionList.InvalidFirstDateCorrected | spendbee/src/frontend/components/dashboard/Transactions.tsx:32-56 | with the corrected cut-off, that statement's valid row is shown |
| Lines.TrimAll | src/server.ts:101 | each line trimmed, one for one |
| Lines.TrimmedPieces | src/server.ts:99-101 | trimmed newline-free pieces are clean lines |
| Lines.NormalisedLines | src/server.ts:99-102 | every normalised line is non-empty, trimmed and newline-free |
| Lines.NormalisedLinesInOrder | src/server.ts:99-102 | the normalised lines are the non-blank trimmed lines in their original order, each kept as often as it occurs |
| Lines.TrimAllTrimmed | src/server.ts:101 | trimming already trimmed lines changes nothing |
| Lines.NormalisedLinesOfNormalised | src/server.ts:99-104 | the lines of normalised text are the lines of the text |
| Lines.EmptyNormalised | src/server.ts:99-104 | empty text has no lines |
| Lines.EmptyLineTrimmed | src/server.ts:101 | the single empty piece of empty text trims to itself |
| Lines.EmptyLineDropped | src/server.ts:102 | `filter(Boolean)` drops the empty line |
| Lines.RejoinedLines | src/server.ts:99-104 | joining clean lines and normalising gives them back |
| Lines.NormaliseIdempotent | spendbee/src/server.ts:36-40 | normalising twice is normalising once |
| Lines.NormaliseNoBlankLines | spendbee/src/server.ts:36-40 | normalised text has no leading, trailing or consecutive newlines |
| Lines.JoinNoBlankLines | spendbee/src/server.ts:40 | joining non-empty newline-free lines leaves no blank line |
| Lines.JoinNonEmpty | spendbee/src/server.ts:40 | joining lines whose first is non-empty gives non-empty text |
| UploadEndpoint.Prompt | spendbee/src/server.ts:105 | the user message is the fixed header followed by the file text, which can be read back |
| UploadEndpoint.AnalyseFile | spendbee/src/server.ts:30-125 | the reply is the decision on the file's content; the model is asked exactly when the content was extracted, and is sent the prompt for it |
| UploadEndpoint.AnalysedStatus | spendbee/src/server.ts:53-125 | 200 exactly for an analysis; errors are 400 or 500 with one of the fixed messages; 400 exactly for an unsupported type |
| UploadEndpoint.AnalysedSuccess | spendbee/src/server.ts:110-121 | the reply is `{analysis: j}` exactly when extraction and the completion succeed and the answer parses to `j` |
| UploadEndpoint.UnsupportedType | spendbee/src/server.ts:53-55 | a type other than CSV or PDF yields no content |
| UploadEndpoint.CsvAndPdfAlike | spendbee/src/server.ts:34-52 | a CSV and a PDF with the same text yield the same content |
| UploadEndpoint.FileContentNormalised | spendbee/src/server.ts:36-52 | extracted content is already normalised |
| SpendBeeServer.HandleUpload | spendbee/src/server.ts:26-126 | no file is 400 "No file uploaded"; otherwise the content decision; unsupported types are 400 with nothing sent; 200 exactly for an analysis |
| Server.AllowedOrigins | src/server.ts:15-17 | unset or empty is no origins; otherwise the comma-separated items, each trimmed |
| Server.AllowedOriginsRoundTrip | src/server.ts:15-17 | a list of trimmed comma-free origins written comma-separated reads back as itself (when the joined text is non-empty; `[""]` joins to the falsy `""` and reads back as `[]`) |
| Server.StripTrailingSlash | src/server.ts:25 | removes exactly one trailing "/" when there is one, and nothing else |
| Server.OriginDecision | src/server.ts:19-31 | CI allows every origin; no origin is allowed; otherwise allowed exactly when the origin without one trailing "/" is listed, else rejected with the origin in the message |
| Server.ListedOrigin | src/server.ts:25-27 | a listed origin not ending in "/" is allowed as is; one ending in "/" is allowed as is only if its slash-free form is listed; any listed origin is allowed with one trailing "/"; with two it is refused unless the one-slash form is listed |
| Server.SlashedEntryMatches | src/server.ts:25-26 | a list entry ending in "/" is matched by exactly one origin, the entry with a second "/", because the request's slash is stripped and the list's is not |
| Server.SlashedEntryListed | src/server.ts:15-17 | `CORS_ORIGINS="a/"` gives the list `["a/"]` |
| Server.SlashedEntryRefused | src/server.ts:25-30 | with `CORS_ORIGINS="a/"` the origin `a/` is refused, with the raw origin in the message |
| Server.DecidedByStrippedOrigin | src/server.ts:25-30 | outside CI, a present origin is decided by its stripped form alone |
| Server.NoListNoOrigins | src/server.ts:15-30 | outside CI with no list, every present origin is rejected |
| Server.HandleUpload | src/server.ts:62-176 | no file is 400; CI is the mock analysis with nothing sent; no client is 500 "OpenAI not configured"; otherwise the content decision; 200 exactly for an analysis |
| Server.ServedIsParsed | src/server.ts:161-171 | an analysis the handler serves outside CI is the parsed model answer |
| Upload.UploadPanel.constructor | spendbee/src/frontend/components/upload/Upload.tsx:6-8 | no file, no error, no analysis |
| Upload.UploadPanel.HandleFileChange | spendbee/src/frontend/components/upload/Upload.tsx:10-24 | nothing selected changes nothing; a wrong type clears the file and sets the error but keeps the analysis; an allowed type is held, and clears error and analysis |
| Upload.UploadPanel.HandleRemove | spendbee/src/frontend/components/upload/Upload.tsx:26-32 | clears file, error and analysis |
| Upload.UploadPanel.HandleUpload | spendbee/src/frontend/components/upload/Upload.tsx:34-59 | no file changes nothing; an error reply sets it and clears the analysis; another reply sets the analysis and clears the error; a failure sets "Failed to upload file"; afterwards error and analysis are not both set |
| Upload.RefusedSelectionKeepsAnalysis | spendbee/src/frontend/components/upload/Upload.tsx:14-19 | after an analysis, a refused selection leaves both the error and the analysis set |

## Left out

- Trigonometry, SVG path strings, label positions and `toFixed` formatting in the doughnut
  chart: only the share and angle arithmetic over `real` is modelled, with π as the
  decimal value of `Math.PI`.
- JavaScript `Date` parsing and `Number.prototype.toString`: both are parameters
  (`parse`, `monthStart`, `showAmount`), so nothing is proved about date or number formats.
- Doubles: amounts, shares and angles are exact `real`s, with no rounding, NaN or
  infinity in the amounts.
- SpendingOverTime.SpendingSeries: a date label that does not parse sorts as timestamp 0.
  The source's comparator returns NaN for it, and from then on the order
  `Array.prototype.sort` produces is implementation-defined, even among the valid labels.
  The chronological order this member states holds for the timestamp-0 reading only.
- SpendingOverTime.SeriesChronological: the same timestamp-0 reading of unparseable date
  labels; with one among the labels, the source promises no order at all.
- TransactionList.SortRows: a date sort gives invalid dates the timestamp 0. The source's
  comparator returns NaN for them, and what `Array.prototype.sort` then does is
  implementation-defined.
- Strings.Lower: `toLowerCase` and `toUpperCase` are modelled for ASCII letters only;
  other characters are left unchanged.
- JavaScript object key order: `Object.entries` puts integer-like keys first. The model
  keeps insertion order, which is what the category names and ISO date strings get.
- The input is never mutated: the model's transaction lists are immutable values, so the
  source's copy before sorting (`[...result]`) has nothing to show.
- I/O and foreign libraries: Express, multer, the `cors` middleware, the OpenAI client
  and its system prompt, `pdf-parse`, `fetch`/`FormData` and `dotenv` are left out. Only
  the decisions the handlers make on their results are modelled, with the libraries as
  parameters.
- Asynchrony: the handlers' `await`s and React's batched state updates are not modelled;
  each handler is one atomic transition.
- The upload panel's clearing of the file input element (`document.getElementById`) and
  `console.error` logging are left out.
- The server's `PORT` configuration, static file serving and health check are left out.
- Rendering, CSS classes, hover state and Chart.js configuration are left out.
- The shape of the model's JSON is not validated, as in the source: `parseJson` is any
  function.
- `SpendBeeAnalysis` carries a `currency` field. The mock analysis and the CI mock have
  one, although `spendbee/src/types/analysis.ts:28-37` does not declare it.

## Findings

| source | as written | input that shows it | evidently intended | confidence | as-written member | corrected member |
|---|---|---|---|---|---|---|
| spendbee/src/frontend/components/dashboard/Transactions.tsx:35-38 | the `reduce` that finds the latest date is seeded with the first row's date; when that date is invalid every comparison with it is false, the cut-off is an invalid date, and the month filter (51-56) then drops every row | a statement whose first row's date is "not a date" and whose second row is dated "2024-01-05" shows no rows under the initial controls | the cut-off is the month start of the latest valid date, so the latest row is always shown | not executed | TransactionList.InvalidFirstDateHidesAll | TransactionList.InvalidFirstDateCorrected |
