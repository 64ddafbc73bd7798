# cigarette-front dashboard aggregator, in Dafny

The cigarette-front dashboard page (`pages/index.tsx`) fetches the confirmed transfers of
one account from a Symbol node. It keeps the transfers whose message is
`"cigarette:smoked"` and shows five things:
- a per-day series of counts;
- a 24-slot histogram of today's transfers by hour;
- today's count;
- the five most recent transfers;
- the mean of the daily counts.

This project models one fetch-and-aggregate pass of that page and proves what it computes.

The model is in five modules:

- `Types` holds the values the pass works on:
  - the records of one search page, with optional `transactionInfo`, `hash` and `timestamp`, and a body that is a transfer with a payload or something else;
  - the normalised transactions;
  - the failures that abort a pass;
  - the local day and hour of an instant, where the hour is below 24.
- `Epoch` models the epoch adjustment. The node reports it as a string such as `"1615853185s"`. The page drops the last character and reads the rest as seconds.
- `Normalize` models the filter loop over the page. It is a method, `NormalizeRecords`, proved equal to a specification on values, `NormalizePage`.
  - The loop aborts on the first record without metadata.
  - It skips records that are not marked transfers.
  - It keeps the rest in page order. Each kept timestamp is `epochAdjustment * 1000` plus the network timestamp.
- `Aggregation` holds the specification of the aggregation as values, and the lemmas about it:
  - the daily series, as a fold (`Fold`) over the days with a trailing current date that starts at `"0000-00-00"`;
  - the run-length decoding (`Expand`) that the series round-trips with;
  - the hourly histogram of today and today's count;
  - the recent list and the average.
- `Dashboard` holds the page's state as the class `Home`. Its fields are `todayCount`, `data`, `categories`, `countPerHour` (an array) and `recentTransactions`.
  - `Load` is one pass. It either fails and leaves the state unchanged, or sets every field to the specification of the kept transactions.
  - The aggregation loop walks a reversed copy of the newest-first list, so it runs oldest-first. It increments the hourly array in place, and it extends and increments the daily series.
  - The loop is proved against the index-based loop state `TallyUpTo`. `TallyComplete` ties that state to the specification.

In the source, the state setters are called in a fixed order: first the resets (lines 130-133), then, for each transaction in turn, its one to five updaters (lines 139-154), then the recent list (line 158). The source does not fix the React version, so when each update is applied and rendered is not certain. Only the call order is. The model therefore computes into locals and array cells, then assigns the fields together at the end of the pass. The final state is the same either way, because the updaters run in the order they are called.

The date library is the parameter `clock: int -> LocalTime`, and the formatted day "today" is the parameter `today`.

## Model

| member | source | states |
|---|---|---|
| Epoch.ParseEpochAdjustment | pages/index.tsx:85-88 | A missing or empty field gives `MissingEpochAdjustment`. Otherwise the result is a number exactly when the field without its last character is a digit string, and `EpochNotNumeric` when it is not. |
| Epoch.DecimalValue | pages/index.tsx:88 | Reading back the decimal spelling of `n` gives `n`. |
| Epoch.EpochRoundTrip | pages/index.tsx:85-88 | For the decimal digits of `n` followed by any one unit character, the epoch adjustment is `n`. |
| Normalize.Missing | pages/index.tsx:99-109 | A record passes the metadata check exactly when it has `transactionInfo`, a non-empty hash and a timestamp. Otherwise the failure is one of the three metadata failures. |
| Normalize.Normalized | pages/index.tsx:119-124 | A kept transaction carries the record's hash. Its timestamp minus the network timestamp is the epoch adjustment times 1000. |
| Normalize.NormalizeRecords | pages/index.tsx:98-125 | The loop returns what `NormalizePage` specifies: the metadata failure of the first record that lacks metadata, or the kept list in page order. |
| Normalize.FirstMissingAppend | pages/index.tsx:98-109 | Across a concatenation, the first metadata failure comes from the first part whenever that part has one. |
| Normalize.KeptAppend | pages/index.tsx:98-124 | Filtering distributes over concatenation, so the kept list keeps page order. |
| Normalize.FailsIffSomeRecordMissing | pages/index.tsx:99-109 | A pass fails exactly when some record, of any kind, lacks metadata. The failure is that of the first such record, and every earlier record passes. |
| Normalize.KeptMembers | pages/index.tsx:111-124 | A transaction is kept exactly when it is the normalised form of a record that passes the check, is a transfer and carries `"cigarette:smoked"`. |
| Normalize.KeptTimestamps | pages/index.tsx:119-124 | Every kept transaction comes from a selected record. It carries that record's hash, and its timestamp is `epoch * 1000` plus the record's network timestamp. |
| Normalize.KeptBound | pages/index.tsx:111-119 | The kept list is no longer than the page. It is exactly as long only when every record is selected. |
| Normalize.MetadataCheckedBeforeKind | pages/index.tsx:99-117 | A marked transfer with an empty hash aborts the pass. A non-transfer without metadata aborts it. A complete record with another payload is skipped. |
| Aggregation.Reversed | pages/index.tsx:135 | The copy has the same length, and its element `i` is the input's element `len - 1 - i`. |
| Aggregation.DaysOf | pages/index.tsx:136 | There is one day label per transaction, and label `i` is the local day of transaction `i`. |
| Aggregation.FoldNext | pages/index.tsx:135-155 | Visiting one more transaction appends its day and is one more `Step` of the daily series. |
| Aggregation.StepWellFormed | pages/index.tsx:146-154 | One iteration keeps the series well formed. |
| Aggregation.FoldWellFormed | pages/index.tsx:129-154 | For any days, `categories` and `data` have equal length and every count is at least 1. No two neighbouring labels are equal. The current date is the last label, or the sentinel while there is none. |
| Aggregation.StepDecodes | pages/index.tsx:146-154 | One iteration extends the decoded series by exactly the day visited. |
| Aggregation.FoldDecodes | pages/index.tsx:135-155 | When the first day is a real one, the series run-length-decodes back to exactly the days visited, in order. |
| Aggregation.FoldDecodesStep | pages/index.tsx:146-154 | If the series decodes to the days before, then after one more day it decodes to those days plus the new one. |
| Aggregation.FoldCountsAll | pages/index.tsx:135-155 | The counts in `data` add up to the number of transactions. |
| Aggregation.FoldCurrent | pages/index.tsx:146-147 | The current date after the loop is the last day visited, or the sentinel if there was none. |
| Aggregation.StepOpensIffNewDay | pages/index.tsx:146-150 | A new entry is appended exactly when the day differs from the previous transaction's day, or when it is the first transaction. It is labelled with that day. Otherwise no entry is added. |
| Aggregation.SeparateRunsStaySeparate | pages/index.tsx:146-154 | The days a, b, a give three entries with count 1 each: runs that are not adjacent are not merged. |
| Aggregation.TwoDaysExample | pages/index.tsx:146-167 | Two transactions on one day and then one on the next give entries with counts 2 and 1, and an average of 1.5. |
| Aggregation.SentinelDayIsLost | pages/index.tsx:129-154 | As written, a first day labelled `"0000-00-00"` opens no entry, and its increment changes nothing. |
| Aggregation.Histogram | pages/index.tsx:133-143 | The histogram always has 24 slots. |
| Aggregation.HistogramNext | pages/index.tsx:138-143 | A transaction on day `today` increments its hour's slot and today's count. Any other transaction changes neither. |
| Aggregation.HistogramCounts | pages/index.tsx:138-143 | Slot `h` holds the number of today's transactions at hour `h`. |
| Aggregation.HistogramSum | pages/index.tsx:133-143 | The 24 slots add up to today's count. |
| Aggregation.TodayCountBound | pages/index.tsx:138-139 | Today's count is at most the number of transactions. |
| Aggregation.TallyDaily | pages/index.tsx:135-155 | After `i` iterations, the loop's daily series is the fold of the first `i` days. |
| Aggregation.TallyCount | pages/index.tsx:138-139 | After `i` iterations, the loop's count is the number of the first `i` transactions dated today. |
| Aggregation.TallyHourly | pages/index.tsx:138-143 | After `i` iterations, the loop's slots are the histogram of the first `i` transactions. |
| Aggregation.TallyComplete | pages/index.tsx:128-155 | After every transaction, the loop state is the daily fold, today's count and the histogram of the whole oldest-first list. |
| Aggregation.Recent | pages/index.tsx:158 | The recent list is the first `min(len, 5)` transactions in the same order, so it holds at most 5. |
| Aggregation.RecentAreLatest | pages/index.tsx:135-158 | The recent list is the last `min(len, 5)` of the oldest-first order the loop visits, reversed. |
| Aggregation.Average | pages/index.tsx:162-167 | The average is 0 for an empty series. Otherwise, times the number of days, it equals the sum of the counts. |
| Aggregation.AverageBetween | pages/index.tsx:162-167 | The mean of a non-empty series lies between any lower and upper bound of its counts. |
| Aggregation.AverageOfPass | pages/index.tsx:146-167 | After a pass, the average is 0 with no transactions. Otherwise it is the number of transactions divided by the number of days, and it is at least 1. |
| Aggregation.AverageExamples | pages/index.tsx:162-167 | The average of [] is 0, of [3] is 3, and of [1, 2, 3] is 2. |
| Dashboard.Pass | pages/index.tsx:82-126 | An epoch failure aborts the pass before any record is read. Otherwise the pass yields the page's normalisation. |
| Dashboard.CountDay | pages/index.tsx:146-154 | The daily part of an iteration is one `Step` of the daily series. |
| Dashboard.CountHour | pages/index.tsx:138-143 | A transaction dated today increments today's count and, in place, its hour's slot of the array. Otherwise nothing changes. |
| Dashboard.CountTransaction | pages/index.tsx:136-154 | One iteration advances the loop state, both the array cells and the daily locals, by one transaction. |
| Dashboard.Accumulate | pages/index.tsx:128-155 | The loop starts from a fresh zeroed 24-slot array and the sentinel. It ends in the loop state after every transaction. |
| Dashboard.Tally | pages/index.tsx:128-155 | The loop yields today's count, a fresh 24-slot array holding the histogram of today, and the `categories`/`data` of the daily fold of the oldest-first list. |
| Dashboard.Home.constructor | pages/index.tsx:28-32 | The initial state is zero, empty lists and an empty hourly array. |
| Dashboard.Home.Aggregate | pages/index.tsx:128-158 | The new state shows the transactions: the daily series, the histogram and today's count of the reversed copy, and the first five of the original order. |
| Dashboard.Home.Load | pages/index.tsx:82-158 | The pass fails exactly when the epoch adjustment is missing or empty, when the adjustment without its last character is not a digit string, or when a record lacks metadata. The state is then unchanged. Otherwise the state shows the kept transactions. |

## Left out

- Rendering, JSX and the chart option objects are presentation and are not modelled. The state setters are modelled by assigning the fields at the end of the pass. The intermediate states a render could show between updates are not modelled; the final state is.
- The Symbol SDK and the network are I/O and are not modelled. This covers the repository factory, the network-properties request, the transaction search and its observables. The pass takes the epoch field and one page of records as inputs.
- The search's page size of 100 and its descending order are not modelled. The page is taken as given, newest first.
- The date library is not modelled, because its time-zone rules are not visible here. Local day and hour come from the `clock` parameter, and the formatted "today" is the `today` parameter.
- Three values are JavaScript doubles in the source, and the model treats each as an unbounded integer. Their rounding above 2^53 is not modelled:
  - the network timestamp read through `compact()`;
  - the epoch adjustment read by `Number(...)`;
  - the sum `epockAdjustment * 1000 + compact()`.
- `Epoch.ParseEpochAdjustment`: this contract deliberately differs from `Number()`. `Number()` accepts more forms (surrounding whitespace, a sign, a fraction, an exponent, hexadecimal) and yields NaN for anything else. With NaN the page carries on with invalid dates. The model reads only digit strings, where the empty string is 0 as with `Number("")`, and reports every other string as the failure `EpochNotNumeric`. The page's `slice(0, -1)` also removes one UTF-16 code unit, while the model removes one character. So with a unit character outside the Basic Multilingual Plane, for example `"12"` followed by U+1F600, the model reads the number 12, while the page keeps a lone surrogate, reads NaN and carries on with invalid dates. The node sends `"<digits>s"`, where the two agree.
- `Aggregation.Average`: this contract uses exact rational division, not IEEE floating point.
- A throw inside the network-properties callback or the page callback rejects the pass's promise. The model returns that as a failure. Nothing in the page catches the rejection, and the browser's handling of an unhandled rejection is not modelled.
- The lemmas about the daily series after a pass require the first day not to be the sentinel `"0000-00-00"`. The date library never formats a real instant that way. The as-written behaviour for that label is stated by `Aggregation.SentinelDayIsLost`.
- There is no loading state and no overlapping-fetch handling in the page, so neither is modelled. The effect runs once, on mount.
- The build and shell files (`next.config.js`, `webpack.config.js`, `pages/_document.tsx`, `pages/_app.tsx`) are not part of this model.
