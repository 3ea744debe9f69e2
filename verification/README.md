# Expense tracker core, modelled in Dafny

This project models the decision logic of a personal expense tracker, a React
dashboard over a list of income and expense records. The logic is a set of
pure functions over a snapshot of those records:

- the **subscription detector** groups expenses by a fuzzy identity. The
  identity is the first six `[a-z0-9]` characters of the lower-cased title
  plus the exact amount. A group is flagged as a whole when two of its dates
  that are adjacent in sorted order lie 27 to 33 days apart;
- the **insight engine** finds month-over-month category drift above 30%,
  small-expense "micro-leaks" over the current week or month, and the single
  daily insight. The daily insight is chosen by fixed priority formulas, ties
  go to the smaller message, and a date-indexed tip is the fallback;
- the **memory archivist** condenses each closed month into at most one
  anchor, derived from its savings rate and its largest category, and appends
  it to a stored list. A reverse scan later finds the newest anchor whose
  threshold the current spending reaches;
- the **dashboard derivations**: newest-first ordering, marking detected
  subscriptions, status update and delete, the range filter, the savings
  summary, the count of days without spending, and the confidence score;
- the **component logic**: password strength, the donut chart's "top five
  plus Others" buckets, the balance gauge's clamp and bands, the add form's
  pre-spend simulator and submit validation, and the header's month list.

Dates are integer day numbers, with day 0 being 1970-01-01. Months are
indexes `year * 12 + month - 1`. Amounts are reals. `today`, the current
instant and generated ids are parameters. `Math.round(x)` is
`floor(x + 0.5)`.

The modules follow the program's structure:

- `Text` holds string helpers;
- `Calendar` holds the civil calendar;
- `Ledger` holds the record type, sums, the income/expense split and
  per-key totals in first-occurrence order;
- `Subscriptions`, `Insights`, `Archivist`, `Dashboard`, `Password`,
  `Donut`, `Gauge`, `AddForm` and `Header` each model one part of the
  program.

## Model

| member | source | states |
|---|---|---|
| Text.Lower | src/utils/subscriptionDetector.js:16 | `toLowerCase` keeps the length and maps every character through the ASCII lower-case mapping |
| Text.Trim | src/components/AddTransactionModal/AddTransactionModal.jsx:116 | `trim` returns a slice of the input. Everything cut off at either end is white space, and a non-empty result starts and ends with a non-space |
| Text.TrimIdempotent | src/components/AddTransactionModal/AddTransactionModal.jsx:124 | trimming a trimmed title changes nothing |
| Text.LessTransitive | src/utils/insightEngine.js:184 | the string order that breaks priority ties is transitive |
| Text.LessTotal | src/utils/insightEngine.js:184 | any two different messages are ordered one way or the other |
| Text.LessAsymmetric | src/utils/insightEngine.js:184 | no two messages are each before the other |
| Text.LessIrreflexive | src/utils/insightEngine.js:184 | no message sorts before itself |
| Text.Utf16Length | src/components/PasswordStrengthIndicator/PasswordStrengthIndicator.jsx:7 | `password.length` counts UTF-16 code units: a character beyond the Basic Multilingual Plane is two units, any other one, so a string has between one and two per character |
| Text.Utf16LengthConcat | src/components/PasswordStrengthIndicator/PasswordStrengthIndicator.jsx:7 | the code units of a concatenation are those of its parts added, so together with the one-character case they fix the count of every string |
| Text.Utf16LengthBmp | src/components/PasswordStrengthIndicator/PasswordStrengthIndicator.jsx:7 | without characters beyond the Basic Multilingual Plane, the length is the number of characters |
| Calendar.WeekStart | src/utils/insightEngine.js:63 | `startOf('week')` is the Sunday on or before the day, less than seven days earlier |
| Calendar.CivilFromDays | src/utils/insightEngine.js:174 | a date's month lies in 1..12 and its day in 1..31 |
| Ledger.Filter | src/App.jsx:114-116 | `filter` keeps exactly the records satisfying the test, and never lengthens the list |
| Ledger.Round | src/utils/insightEngine.js:47 | `Math.round` gives the integer nearest to x, with halves rounded up |
| Ledger.RoundedRate | src/App.jsx:141 | the whole-percent savings rate: 0 without income, otherwise the savings share of income rounded as `Math.round` does, within 0..100 when expenses are non-negative and do not exceed income |
| Ledger.RoundedRateAntitone | src/components/AddTransactionModal/AddTransactionModal.jsx:79-86 | more expense against the same income never raises the rounded rate |
| Ledger.SplitPartitions | src/App.jsx:134-138 | the reduction puts exactly the income records on the income side and all others on the expense side, so the two add up to the sum of all amounts |
| Ledger.TotalsByCorrect | src/utils/insightEngine.js:11-18 | the `acc[key] = (acc[key] or 0) + amount` accumulator holds each key of the records exactly once, and the total for any key is the sum of that key's amounts |
| Ledger.CategoryTotalsCorrect | src/utils/memoryArchivist.js:108-113 | the per-category accumulator has one entry per category of the records, holding that category's sum |
| Subscriptions.KeepKeyChars | src/utils/subscriptionDetector.js:16 | removing `[^a-z0-9]` keeps exactly the lower-case letters and digits of the text, in order, and nothing else |
| Subscriptions.KeepKeyCharsConcat | src/utils/subscriptionDetector.js:16 | the removal works piecewise: the kept characters of `a + b` are those of `a` followed by those of `b` |
| Subscriptions.NormalizeTitle | src/utils/subscriptionDetector.js:16 | the title key is the first six `[a-z0-9]` characters of the lower-cased title (all of them when there are fewer), so it has at most 6 characters, each a lower-case letter or a digit |
| Subscriptions.NormalizeTitleIdempotent | src/utils/subscriptionDetector.js:16 | normalising a normalised title changes nothing |
| Subscriptions.Group | src/utils/subscriptionDetector.js:12-21 | a key group holds exactly the expenses with that key that are neither confirmed nor dismissed |
| Subscriptions.SortAsc | src/utils/subscriptionDetector.js:26 | the dates are sorted ascending, as a permutation of the group's dates |
| Subscriptions.SortedGapIsNeighbourGap | src/utils/subscriptionDetector.js:26-37 | the gap test on sorted dates holds iff two of the dates lie 27 to 33 days apart with no date strictly between them. This reading does not depend on order |
| Subscriptions.ScanForMonthlyGap | src/utils/subscriptionDetector.js:29-37 | the loop with early exit reports a gap iff some pair of adjacent sorted dates is 27 to 33 days apart |
| Subscriptions.GroupByKey | src/utils/subscriptionDetector.js:10-21 | the grouping map's keys are exactly the listed keys, each group is that key's group in input order, and every eligible expense lands in a group |
| Subscriptions.DetectSubscriptions | src/utils/subscriptionDetector.js:7-45 | the result is exactly the ids of the eligible expenses whose key group has two or more members and a monthly gap |
| Subscriptions.FlaggedAreEligibleExpenses | src/utils/subscriptionDetector.js:8-13 | every returned id belongs to an expense of the input that is neither confirmed nor dismissed |
| Subscriptions.NeverFlagsIneligible | src/utils/subscriptionDetector.js:8-13 | with unique ids, no income record and no confirmed or dismissed record is flagged |
| Subscriptions.GroupSharesKey | src/utils/subscriptionDetector.js:16-20 | records share a group only if their normalised titles and amounts are equal |
| Subscriptions.LoneRecordNotFlagged | src/utils/subscriptionDetector.js:24 | with unique ids, a record alone in its group is never flagged |
| Subscriptions.FlagsWholeGroup | src/utils/subscriptionDetector.js:39-41 | with unique ids, when one member of a group is flagged, every eligible record with the same key is flagged |
| Subscriptions.EmptyInputFlagsNothing | src/utils/subscriptionDetector.js:7-10 | no input gives the empty set |
| Subscriptions.PairFlaggedIffMonthApart | src/utils/subscriptionDetector.js:29-41 | two eligible same-key expenses are both flagged iff their dates are 27 to 33 days apart; otherwise neither is |
| Subscriptions.NetflixExamples | src/utils/subscriptionDetector.js:29-37 | two identical expenses 30 days apart are both flagged; 40 days apart, neither is |
| Insights.DriftsOf | src/utils/insightEngine.js:36-53 | at most one entry per category, and one exactly for each current category whose previous total is positive and whose rise exceeds 30%. The entry carries both totals, the rounded percentage and the display label |
| Insights.DetectCategoryDrift | src/utils/insightEngine.js:6-56 | entries exist exactly for the categories with expenses in the target month whose previous-month total is positive and whose rise exceeds 30%. No category has two entries. Each entry holds both months' expense totals, the rounded percentage, which is at least 30, and the category's display label |
| Insights.DriftThresholdExamples | src/utils/insightEngine.js:40-50 | from 100 to 140 gives a 40% entry; from 100 to 130 or to 125 gives none |
| Insights.DriftIgnoresOtherRecords | src/utils/insightEngine.js:11-21 | adding an income record, or an expense of any other month, leaves the drift entries unchanged |
| Insights.DetectMicroLeaks | src/utils/insightEngine.js:61-97 | weekly iff the week's 50-200 expenses sum to at least 500. Otherwise monthly iff the month's reach 1500, else none. Total and count are the sum and size of the counted records |
| Insights.CountedRecordsAreMicro | src/utils/insightEngine.js:66-73 | a record is counted iff it is an expense of 50 to 200 dated on or after the start of the week (or month) |
| Insights.FiveHundredThisWeek | src/utils/insightEngine.js:72-85 | five expenses of 100 today make a weekly leak of 500 over 5 purchases |
| Insights.LeakCandidates | src/utils/insightEngine.js:157-164 | a leak yields exactly one candidate carrying its message, none without a leak. Its priority is 50 plus floor(total / 100), capped so it reaches 70 exactly when the total is 2000 or more, and is at least 50 for a non-negative total |
| Insights.DriftCandidates | src/utils/insightEngine.js:166-172 | one drift candidate per entry, in order, with priority 40 + floor(percent / 5) |
| Insights.BestIndex | src/utils/insightEngine.js:182-187 | the stable sort's first element: no candidate sorts before it, and every earlier candidate sorts after it |
| Insights.GetDailyInsight | src/utils/insightEngine.js:116-188 | the insight is one of the candidates, which always include the tip. No candidate has a higher priority or sorts before it |
| Insights.TipWhenNothingElse | src/utils/insightEngine.js:174-180 | with no subscription activity, no decline, no leak and no drift, the insight is the tip of the day, the tip at index (year + month + day) mod 10 of today's date (`Insights.TipIndex`) |
| Insights.DriftsBelowEighty | src/utils/insightEngine.js:166-172 | a drift below 200% ranks below 80 |
| Insights.SubscriptionOutranks | src/utils/insightEngine.js:121-187 | recent subscription activity wins when there is no savings decline and every drift is below 200% |
| Archivist.StoreRoundTrip | src/utils/memoryArchivist.js:5-13 | reading the store (`Archivist.GetStoredAnchors`) gives back what the archiving pass wrote, a second pass over what was read back writes nothing, and a missing or unreadable store behaves as an empty list |
| Archivist.ClosedMonths | src/utils/memoryArchivist.js:23-25 | each month that has records, other than the current one, appears exactly once |
| Archivist.ClosedMonthsInOrder | src/utils/memoryArchivist.js:23-25 | the closed months keep the insertion order of the `Set`: each comes before any month whose first record is later, so anchors are appended in that order |
| Archivist.MaxCategory | src/utils/memoryArchivist.js:48-55 | the scan returns the first entry with the largest positive total (strict `>`, so the first wins ties), or none with 0 when no total is positive |
| Archivist.MaxIsLargestCategory | src/utils/memoryArchivist.js:36-55 | the largest category is a category of the month's spending, its amount is that category's sum, and no category sums to more |
| Archivist.MonthAnchor | src/utils/memoryArchivist.js:33-91 | a month yields an anchor iff it has records, a largest category with a non-empty name, and a rate below 10 or above 25. Below 10 gives a consequence at 0.9 times the largest category's sum; above 25 gives a positive anchor at 1.5 times it |
| Archivist.SpendIsNonIncome | src/utils/memoryArchivist.js:36-43 | every non-income record of the month counts as spending; income never does |
| Archivist.ArchiveFrom | src/utils/memoryArchivist.js:27-92 | the pass keeps the list it starts from as a prefix, and reports an update iff it appended something |
| Archivist.ArchiveFromAppends | src/utils/memoryArchivist.js:30-91 | each appended anchor is the anchor of one of the months, for a month with no earlier anchor, and no month gets two |
| Archivist.ArchivePreviousPeriods | src/utils/memoryArchivist.js:19-99 | the stored anchors stay as a prefix, the store is written iff something was appended, and unique periods stay unique |
| Archivist.ArchiveAddsOnlyNewAnchors | src/utils/memoryArchivist.js:23-34 | every appended anchor is for a closed month that has records and had no anchor, and is the anchor that month yields. The current month is never archived |
| Archivist.ArchiveCoversClosedMonths | src/utils/memoryArchivist.js:30-92 | after the pass, every closed month with records has an anchor or yields none |
| Archivist.ArchiveIdempotent | src/utils/memoryArchivist.js:27-98 | archiving again over the output appends nothing and does not write the store |
| Archivist.LastMatch | src/utils/memoryArchivist.js:115-122 | the reverse scan finds the last anchor whose category total reaches its threshold, or reports that none does |
| Archivist.FindActiveMemoryAnchor | src/utils/memoryArchivist.js:105-125 | none iff no anchor fires (in particular for an empty list). Otherwise the insight of the last anchor that fires |
| Archivist.ConsequenceAnchor | src/utils/memoryArchivist.js:57-79 | a month with records, a named largest category and a rate below 10 yields a consequence anchor on that category at 90% of its amount |
| Archivist.FoodAnchorExample | src/utils/memoryArchivist.js:33-122 | a month with income 1000, Food 500 and Rent 450 saves 5% and yields a consequence anchor on Food at 450. That anchor fires at a Food spend of 460 and not at 440 |
| Archivist.NewestAnchorWins | src/utils/memoryArchivist.js:115-122 | of two firing anchors, the one later in the stored list is reported (the one appended later, not necessarily the more recent month) |
| Dashboard.SortByDateDesc | src/App.jsx:88-90 | the sorted list is a permutation of the records, newest first |
| Dashboard.SortKeepsSorted | src/App.jsx:88-90 | a list that is already newest first, ties included, is returned unchanged, as a stable sort returns it |
| Dashboard.SortIdempotent | src/App.jsx:88-90 | sorting twice is sorting once |
| Dashboard.MarkDetected | src/App.jsx:97-102 | each position keeps its record, except that a flagged record without status becomes detected |
| Dashboard.ProcessTransactionsMarks | src/App.jsx:95-103 | length and order are kept and only the status changes. It changes exactly for detector ids without status, and a record ends detected iff it was detected or was so marked |
| Dashboard.UpdateSubscriptionStatus | src/App.jsx:351-355 | only the status of the records with the given id changes; every other field and record is identical |
| Dashboard.UpdateIdempotent | src/App.jsx:351-355 | applying the same status update twice equals applying it once |
| Dashboard.UpdatesCommute | src/App.jsx:351-355 | updates for different ids commute |
| Dashboard.Delete | src/App.jsx:343 | the remaining records are exactly those with another id |
| Dashboard.DeleteRemovesExactly | src/App.jsx:343 | the length drops by the number of records with that id, and the others keep their order |
| Dashboard.DeleteIdempotent | src/App.jsx:343 | deleting the same id again changes nothing |
| Dashboard.FilteredTransactions | src/App.jsx:109-131 | the month view keeps exactly the selected month's records. All time returns the input. A rolling window keeps the records from the start of the month 2, 5 or 11 months back through the end of the selected month |
| Dashboard.FilteredConcat | src/App.jsx:109-131 | every range filter keeps the input order: it distributes over concatenation |
| Dashboard.SavingsDataOf | src/App.jsx:133-150 | income and expense partition the filtered sum. Savings is their difference, the rate is the rounded savings rate `Ledger.RoundedRate` of the two (the same rate the add form's simulator starts from), and count is the length |
| Dashboard.NoSpendDays | src/App.jsx:173-206 | never negative; 0 without records in the all-time view or when the span starts after today; at most the days from the start through min(end, today) |
| Dashboard.NoSpendDaysWithin | src/App.jsx:192-205 | the count of the days from the span's start through min(end, today) on which no filtered record is an expense |
| Dashboard.FutureExpenseHidesToday | src/App.jsx:199-205 | on 1 January 2024 with one expense on 10 January, the count as written is 0 while the intended count is 1 |
| Dashboard.SavingsScore | src/App.jsx:259-260 | the savings score is twice the rate, clamped to 0..40: 0 for a non-positive rate, 2 × rate up to 20, and 40 from 20 on |
| Dashboard.RunwayScore | src/App.jsx:262-276 | the runway score lies in 0..30, is 0 with a non-positive balance, and 20 outside the current month with a positive balance |
| Dashboard.VelocityScore | src/App.jsx:281-289 | the velocity score is 0, 15 or 30. It is 0 iff the recent daily spend exceeds 1.5 times the period average, and 30 iff it is at most 1.2 times when the period average is positive |
| Dashboard.StateOf | src/App.jsx:291-295 | stable iff total >= 65, stretched iff 35 <= total < 65, attention iff total < 35 |
| Dashboard.StateMonotone | src/App.jsx:293-295 | a higher total never gives a worse state |
| Dashboard.ScoresOf | src/App.jsx:255-291 | the three scores stay within their ranges and total 0..100. The savings score is `Dashboard.SavingsScore` of the rounded savings rate. The runway score is 0 when savings are not positive, and 20 for positive savings when today does not fall in the selected month. The velocity score is 0 iff the last seven days' daily spend exceeds 1.5 times the period's daily average (1 when that average is 0) |
| Dashboard.SavingAndSteadyIsStable | src/App.jsx:252-296 | a non-empty set saving at least 20% with steady recent spending (velocity score 30) is stable whatever its runway |
| Dashboard.ConfidenceMonotoneInRate | src/App.jsx:259-295 | with runway and velocity fixed, a better savings rate never worsens the state |
| Dashboard.NoSavingsNeedsAttention | src/App.jsx:252-296 | without positive savings, the confidence state (`Dashboard.Confidence`) of a non-empty set is attention |
| Password.PassedChecks | src/components/PasswordStrengthIndicator/PasswordStrengthIndicator.jsx:14 | the count of true checks lies in 0..5. It is 5 iff all checks hold and 0 iff none does |
| Password.CheckStrength | src/components/PasswordStrengthIndicator/PasswordStrengthIndicator.jsx:5-33 | strong iff length >= 8 with an upper-case letter, a lower-case letter, a digit and a special character. Medium iff all of those but the special character. Weak otherwise |
| Password.Indicator | src/components/PasswordStrengthIndicator/PasswordStrengthIndicator.jsx:35 | nothing iff the password is empty |
| Password.AppendNeverWeakens | src/components/PasswordStrengthIndicator/PasswordStrengthIndicator.jsx:6-30 | appending characters never lowers the strength or the number of passed checks |
| Password.ShortIsWeak | src/components/PasswordStrengthIndicator/PasswordStrengthIndicator.jsx:7 | fewer than 8 code units, or at most 3 characters, is weak |
| Password.StrongExample | src/components/PasswordStrengthIndicator/PasswordStrengthIndicator.jsx:19-22 | `Abcdef1!` is strong |
| Password.MediumExample | src/components/PasswordStrengthIndicator/PasswordStrengthIndicator.jsx:23-25 | `Abcdefg1` is medium |
| Password.SevenCharactersExample | src/components/PasswordStrengthIndicator/PasswordStrengthIndicator.jsx:7 | `Abcde1!` is weak despite passing the other four checks |
| Donut.CapitalizeIdempotent | src/components/CategoryDonutChart/CategoryDonutChart.jsx:26 | capitalising a bucket name again changes nothing |
| Donut.CapitalizeKeepsLower | src/components/CategoryDonutChart/CategoryDonutChart.jsx:26 | capitalising changes only case: two categories share a bucket only if they agree ignoring the case of ASCII letters |
| Donut.CapitalizeMerges | src/components/CategoryDonutChart/CategoryDonutChart.jsx:26 | `food...` and `Food...` fall in the same bucket |
| Donut.TotalsBySum | src/components/CategoryDonutChart/CategoryDonutChart.jsx:25-30 | the bucket totals add up to the running `total` |
| Donut.SortByValueDesc | src/components/CategoryDonutChart/CategoryDonutChart.jsx:33-37 | the buckets are a permutation ordered by value, descending, with the same sum |
| Donut.BucketsCorrect | src/components/CategoryDonutChart/CategoryDonutChart.jsx:21-37 | bucket names are distinct, and each is the capitalised category of some record of the type, holding that bucket's sum. Every record of the type has a bucket |
| Donut.TopFive | src/components/CategoryDonutChart/CategoryDonutChart.jsx:40-53 | at most 6 slices: all buckets when there are at most five, else the top five plus `Others` iff the rest's sum is positive. `Others` holds that sum, and its percentage is the sum's share of the total (0 when the total is 0) |
| Donut.TopFiveAddsUp | src/components/CategoryDonutChart/CategoryDonutChart.jsx:40-53 | when the dropped tail is not negative, the slices add up to all the buckets |
| Donut.ChartOf | src/components/CategoryDonutChart/CategoryDonutChart.jsx:20-56 | `totalAmount` is the sum over the records of the selected type, and the buckets add up to it. `chartData` is the top five of the sorted buckets plus `Others`, at most 6 slices |
| Donut.ChartAddsUp | src/components/CategoryDonutChart/CategoryDonutChart.jsx:20-56 | with non-negative amounts the slices' values add up to `totalAmount` |
| Donut.NoTotalNoPercentage | src/components/CategoryDonutChart/CategoryDonutChart.jsx:36 | with no positive total, each of the top five slices has percentage 0 |
| Gauge.Percentage | src/components/LiquidBalanceGauge/LiquidBalanceGauge.jsx:8-16 | the percentage lies in 0..100. It is 0 for a zero maximum, the balance's share when that is in range, 0 below it (a negative balance) and 100 above it. A missing maximum means 50000 |
| Gauge.Band | src/components/LiquidBalanceGauge/LiquidBalanceGauge.jsx:20-24 | four bands split at 15, 40 and 70 |
| Gauge.Hue | src/components/LiquidBalanceGauge/LiquidBalanceGauge.jsx:19-29 | hue 5, 35, 145 or 190 by band |
| Gauge.StatusLabel | src/components/LiquidBalanceGauge/LiquidBalanceGauge.jsx:31-36 | the label follows the same bands as the hue |
| Gauge.LiquidLevelBounds | src/components/LiquidBalanceGauge/LiquidBalanceGauge.jsx:47 | the liquid level lies in 2..98: 98 when empty, 2 when full |
| Gauge.BandMonotone | src/components/LiquidBalanceGauge/LiquidBalanceGauge.jsx:12-36 | with a positive maximum, a larger balance never lowers the percentage or the band, and never raises the level |
| Gauge.DefaultExamples | src/components/LiquidBalanceGauge/LiquidBalanceGauge.jsx:8-36 | half the default maximum is healthy (hue 145); a tenth is critical |
| AddForm.SimulationResult | src/components/AddTransactionModal/AddTransactionModal.jsx:73-105 | a result exists iff in simulate mode with an amount above 0 and a category. The new expense total and new category total each add the amount. The rate change is new minus current. The category increase is 100 when the category had no spending, and non-negative otherwise |
| AddForm.ExpenseOfCategorySum | src/components/AddTransactionModal/AddTransactionModal.jsx:88-90 | the category total sums only the expenses of the chosen category |
| AddForm.SimulationNeverRaisesRate | src/components/AddTransactionModal/AddTransactionModal.jsx:79-86 | when the current rate is the rounded rate of the current totals, a simulated expense never raises it |
| AddForm.HandleSubmit | src/components/AddTransactionModal/AddTransactionModal.jsx:108-135 | simulate mode returns to recording. A record is rejected iff its trimmed title, amount or category is empty. Otherwise the record has the trimmed, non-empty title, trimmed notes, and the form's amount, category, type and date. Its context tag is kept only for expenses |
| AddForm.TitleStable | src/components/AddTransactionModal/AddTransactionModal.jsx:124 | the built record's title is already trimmed |
| Header.InsertMonth | src/components/Header/Header.jsx:15-16 | inserting into a newest-first list without repeats keeps it so and adds exactly that month |
| Header.DistinctNewestFirst | src/components/Header/Header.jsx:15-16 | `new Set` then the sort gives the same months, strictly newest first |
| Header.AllMonths | src/components/Header/Header.jsx:10-16 | strictly newest first with no repeats. It contains a month iff it is among the trailing twelve (`Header.TrailingMonths`) or is the month of a record (`Header.RecordMonths`) |
| Header.OnlyRecentRecords | src/components/Header/Header.jsx:10-16 | when every record lies in the trailing twelve months, the list is exactly those twelve |

## Left out

- Network, authentication and the asynchronous create/delete round trips are not modelled. Only the pure list updates are: the new list after a delete and after a status update.
- `localStorage` is not modelled. The anchor store is a `Stored` value (absent, unreadable or parsed), and the write is `Archivist.Write`, which is present exactly when the pass updated the list.
- The dayjs calendar library is replaced by integer day numbers and month indexes, with today as a parameter:
  - `format('MMM YYYY')` becomes a month index;
  - `startOf('week')` is the Sunday-based default locale;
  - `diff(..., 'day')` is a difference of day numbers.
- Header: `dayjs(label, 'MMM YYYY')` parsing is not modelled. The model sorts month indexes, which stand one to one for the labels.
- Calendar.CivilFromDays: the contract states only the ranges of month and day. It does not state that the result is the Gregorian date of the day number, that it inverts `Calendar.DaysFromCivil`, or that `Calendar.MonthStart(MonthOf(d)) <= d <= Calendar.MonthEnd(MonthOf(d))`. Proving these needs heavy non-linear arithmetic. The month view filters by `MonthOf` while the no-spend span uses `MonthStart`..`MonthEnd`, so the model takes their agreement from the definitions unproved.
- Day of the month (`dom`) and days in the month (`dim`) are parameters of the confidence score, not derived from today; relating them to `today` would need the calendar facts listed under `Calendar.CivilFromDays`. Whether the selected month is current is derived from `today`.
- `localeCompare` is replaced by code-point lexicographic order. This is a fixed total order, proved transitive and total; locale collation rules are not modelled.
- JavaScript objects list integer-like keys first. The per-key totals instead keep first-occurrence order for every key.
- Number formatting is not modelled:
  - `Intl.NumberFormat` currency output and colour strings are left out;
  - the micro-leak message renders its total by integer part, where JavaScript prints the decimal expansion;
- Text.Lower: `toLowerCase` and `toUpperCase` are modelled on ASCII letters only. This affects `Subscriptions.NormalizeTitle`: JavaScript lower-cases some non-ASCII letters into `[a-z]`, for example the Kelvin sign U+212A into `k`, which then survives into the key, while the model drops them.
- IEEE floating point is not modelled: amounts are exact reals.
- The amount input is `Blank | Number(value)`. A `type="number"` field holds either nothing or numeric text, so `parseFloat` returning `NaN` is not represented.
- `Date.now()` ids and `new Date()` creation times are the parameters `id` and `now` of `AddForm.HandleSubmit`.
- The mapping from the modal's record to `handleAddTransaction`'s payload is not modelled.
- `eomAwarenessData` is not modelled.
- The confidence state's text strings are not modelled.
- The Others slice's percentage is 0 when the total is 0. In JavaScript it would be `Infinity`, which can only happen with negative amounts.
- `Insights.TipIndex`: years before 1 (a negative date hash) are not considered. Dafny's `%` is never negative, while JavaScript's can be.
- The browser's constraint validation of the add form is not modelled: `required` on the title and amount (src/components/AddTransactionModal/AddTransactionModal.jsx:229, 250), `min="0"` and `step="0.01"` on the amount (lines 248-249) and `max` = today on the date (line 345). `AddForm.HandleSubmit` models only the check in `handleSubmit`, so it accepts negative amounts and dates after today that the browser would refuse before submission.
- Dashboard.RunwayScore: for the current month with a positive balance, the contract states only the clamp to 0..30, not the ratio formula.
- Dashboard.NoSpendDays: the contract states only the bounds of the count as written. The exact intended count is stated by `Dashboard.NoSpendDaysWithin`, see Findings.
- Subscriptions.NeverFlagsIneligible, Subscriptions.LoneRecordNotFlagged and Subscriptions.FlagsWholeGroup assume unique record ids. The detector returns ids, so a shared id would mix records.
- The password strength colour is not modelled. The `passedChecks >= 2` branch is not modelled separately, because it sets the same weak strength as the default.

## Findings

| source | as written | input that shows it | evidently intended | confidence | as-written member | corrected member |
|---|---|---|---|---|---|---|
| src/App.jsx:199-205 | the no-spend count subtracts every distinct expense day of the filtered records, including days after the end of the span, which is capped at today | month view of January 2024 on 1 January 2024, with one expense dated 10 January: the count is 1 - 1 = 0. The add form cannot enter that record, because its date input is capped at today (src/components/AddTransactionModal/AddTransactionModal.jsx:345); it has to arrive from the backend, for example a record made on a device whose local date is already ahead | subtract only expense days within the counted span, giving 1 | not executed | Dashboard.NoSpendDays (with Dashboard.FutureExpenseHidesToday) | Dashboard.NoSpendDaysWithin |
