/**
 * The dashboard's derived views of the transaction list: newest-first
 * ordering, subscription marking, status updates and deletion, the range
 * filter, the savings summary, the count of days without spending, and the
 * three-part confidence score.
 */
module Dashboard {
  import opened Text
  import opened Ledger
  import Calendar
  import Subscriptions

  // ---------------------------------------------------------------------------
  // Newest first
  // ---------------------------------------------------------------------------

  predicate SortedByDateDesc(s: seq<Transaction>)
  {
    forall i, j :: 0 <= i < j < |s| ==> s[i].date >= s[j].date
  }

  /** Inserts `t` before the first record that is not newer, keeping equal dates in input order. */
  function InsertByDate(t: Transaction, s: seq<Transaction>): (r: seq<Transaction>)
    requires SortedByDateDesc(s)
    ensures |r| == |s| + 1
    ensures r[0] == t || (|s| > 0 && r[0] == s[0])
    ensures SortedByDateDesc(r)
    ensures multiset(r) == multiset(s) + multiset{t}
  {
    if |s| == 0 then [t]
    else if t.date >= s[0].date then
      ConsByDate(t, s);
      [t] + s
    else
      var rest := InsertByDate(t, s[1..]);
      assert s == [s[0]] + s[1..];
      ConsByDate(s[0], rest);
      [s[0]] + rest
  }

  /** Putting a record no older than the head in front keeps the order. */
  lemma ConsByDate(h: Transaction, r: seq<Transaction>)
    requires SortedByDateDesc(r)
    requires |r| > 0 ==> h.date >= r[0].date
    ensures SortedByDateDesc([h] + r)
    ensures multiset([h] + r) == multiset{h} + multiset(r)
  {
  }

  /**
   * `[...transactions].sort((a, b) => dayjs(b.date).diff(dayjs(a.date)))`:
   * a stable sort, newest first.
   */
  function SortByDateDesc(s: seq<Transaction>): (r: seq<Transaction>)
    ensures SortedByDateDesc(r)
    ensures multiset(r) == multiset(s)
  {
    if |s| == 0 then []
    else
      assert s == [s[0]] + s[1..];
      InsertByDate(s[0], SortByDateDesc(s[1..]))
  }

  /** A list that is already newest first is left exactly as it is. */
  lemma {:induction false} SortKeepsSorted(s: seq<Transaction>)
    requires SortedByDateDesc(s)
    ensures SortByDateDesc(s) == s
  {
    if |s| > 0 {
      SortKeepsSorted(s[1..]);
      if |s| > 1 {
        assert s[0].date >= s[1].date;
      }
    }
  }

  /** Sorting twice is sorting once. */
  lemma SortIdempotent(s: seq<Transaction>)
    ensures SortByDateDesc(SortByDateDesc(s)) == SortByDateDesc(s)
  {
    SortKeepsSorted(SortByDateDesc(s));
  }

  // ---------------------------------------------------------------------------
  // Subscription marking, status update, deletion
  // ---------------------------------------------------------------------------

  /**
   * The `map` over the sorted list giving each flagged record without a
   * status the status `detected`.
   */
  function MarkDetected(txs: seq<Transaction>, ids: set<string>): (r: seq<Transaction>)
    ensures |r| == |txs|
    ensures forall i :: 0 <= i < |txs| ==>
      r[i] == (if txs[i].id in ids && txs[i].status == NoStatus then txs[i].(status := Detected) else txs[i])
  {
    if |txs| == 0 then []
    else
      var t := txs[0];
      [if t.id in ids && t.status == NoStatus then t.(status := Detected) else t] + MarkDetected(txs[1..], ids)
  }

  /** `processedTransactions`: the sorted list with the detector's ids marked. */
  function ProcessTransactions(sorted: seq<Transaction>): seq<Transaction>
  {
    MarkDetected(sorted, Subscriptions.RecurringIds(sorted))
  }

  /**
   * Marking keeps length and order, touches only the status, and gives
   * `detected` exactly to the flagged records that had no status.
   */
  lemma ProcessTransactionsMarks(sorted: seq<Transaction>, i: int)
    requires 0 <= i < |sorted|
    ensures |ProcessTransactions(sorted)| == |sorted|
    ensures ProcessTransactions(sorted)[i].(status := sorted[i].status) == sorted[i]
    ensures ProcessTransactions(sorted)[i].status != sorted[i].status
      <==> sorted[i].id in Subscriptions.RecurringIds(sorted) && sorted[i].status == NoStatus
    ensures ProcessTransactions(sorted)[i].status == Detected <==>
      (|| sorted[i].status == Detected
       || (sorted[i].id in Subscriptions.RecurringIds(sorted) && sorted[i].status == NoStatus))
  {
  }

  /** `handleUpdateSubscriptionStatus`: the records with id `id` get status `status`. */
  function UpdateSubscriptionStatus(txs: seq<Transaction>, id: string, status: Status): (r: seq<Transaction>)
    ensures |r| == |txs|
    ensures forall i :: 0 <= i < |txs| ==> r[i].(status := txs[i].status) == txs[i]
    ensures forall i :: 0 <= i < |txs| ==> r[i].status == if txs[i].id == id then status else txs[i].status
  {
    if |txs| == 0 then []
    else [if txs[0].id == id then txs[0].(status := status) else txs[0]] + UpdateSubscriptionStatus(txs[1..], id, status)
  }

  /** Setting a status twice is setting it once; the second call changes nothing. */
  lemma UpdateIdempotent(txs: seq<Transaction>, id: string, status: Status)
    ensures UpdateSubscriptionStatus(UpdateSubscriptionStatus(txs, id, status), id, status)
      == UpdateSubscriptionStatus(txs, id, status)
  {
    var once := UpdateSubscriptionStatus(txs, id, status);
    var twice := UpdateSubscriptionStatus(once, id, status);
    forall i | 0 <= i < |txs|
      ensures twice[i] == once[i]
    {
      assert twice[i].(status := once[i].status) == once[i];
    }
  }

  /** Updates for different ids commute. */
  lemma UpdatesCommute(txs: seq<Transaction>, id1: string, s1: Status, id2: string, s2: Status)
    requires id1 != id2
    ensures UpdateSubscriptionStatus(UpdateSubscriptionStatus(txs, id1, s1), id2, s2)
      == UpdateSubscriptionStatus(UpdateSubscriptionStatus(txs, id2, s2), id1, s1)
  {
    var a := UpdateSubscriptionStatus(UpdateSubscriptionStatus(txs, id1, s1), id2, s2);
    var b := UpdateSubscriptionStatus(UpdateSubscriptionStatus(txs, id2, s2), id1, s1);
    forall i | 0 <= i < |txs|
      ensures a[i] == b[i]
    {
      assert a[i].(status := txs[i].status) == txs[i];
      assert b[i].(status := txs[i].status) == txs[i];
    }
  }

  /** Keeps the records whose id is not `id`. */
  function IdIsNot(id: string): Transaction -> bool
  {
    (t: Transaction) => t.id != id
  }

  /** The delete handler's `transactions.filter((t) => t.id !== id)`. */
  function Delete(txs: seq<Transaction>, id: string): (r: seq<Transaction>)
    ensures forall t :: t in r <==> t in txs && t.id != id
  {
    Filter(txs, IdIsNot(id))
  }

  /** The number of records carrying id `id`. */
  function CountId(txs: seq<Transaction>, id: string): nat
  {
    if |txs| == 0 then 0 else (if txs[0].id == id then 1 else 0) + CountId(txs[1..], id)
  }

  /**
   * Deleting removes exactly the records with that id: the others stay, in
   * order, and the length drops by their number.
   */
  lemma {:induction false} DeleteRemovesExactly(txs: seq<Transaction>, id: string)
    ensures |Delete(txs, id)| == |txs| - CountId(txs, id)
    ensures |txs| > 0 ==> Delete(txs, id) == (if txs[0].id == id then [] else [txs[0]]) + Delete(txs[1..], id)
  {
    if |txs| > 0 {
      DeleteRemovesExactly(txs[1..], id);
    }
  }

  /** Deleting the same id again changes nothing. */
  lemma DeleteIdempotent(txs: seq<Transaction>, id: string)
    ensures Delete(Delete(txs, id), id) == Delete(txs, id)
  {
    FilterKeepsAll(Delete(txs, id), IdIsNot(id));
  }

  // ---------------------------------------------------------------------------
  // Range filter
  // ---------------------------------------------------------------------------

  /** `selectedRange`: 'month', '3months', '6months', 'year', 'all'. */
  datatype Range = MonthOnly | ThreeMonths | SixMonths | PastYear | AllTime

  /** How many months before the selected one a rolling window starts. */
  function BackMonths(range: Range): int
    requires range != MonthOnly && range != AllTime
  {
    match range
    case ThreeMonths => 2
    case SixMonths => 5
    case _ => 11
  }

  /** Dated from day `start` through day `end`. */
  function DatedWithin(start: int, end: int): Transaction -> bool
  {
    (t: Transaction) => start <= t.date <= end
  }

  /** `filteredTransactions` for the selected month index `selected`. */
  function FilteredTransactions(txs: seq<Transaction>, range: Range, selected: int): (r: seq<Transaction>)
    ensures range == MonthOnly ==> forall t :: t in r <==> t in txs && MonthOf(t) == selected
    ensures range == AllTime ==> r == txs
    ensures range != MonthOnly && range != AllTime ==> forall t :: t in r <==>
      t in txs && Calendar.MonthStart(selected - BackMonths(range)) <= t.date <= Calendar.MonthEnd(selected)
    ensures |r| <= |txs|
  {
    match range
    case MonthOnly => InMonth(txs, selected)
    case AllTime => txs
    case _ =>
      Filter(txs, DatedWithin(Calendar.MonthStart(selected - BackMonths(range)), Calendar.MonthEnd(selected)))
  }

  /** Every range keeps the records in their original order: filtering distributes over concatenation. */
  lemma FilteredConcat(a: seq<Transaction>, b: seq<Transaction>, range: Range, selected: int)
    ensures FilteredTransactions(a + b, range, selected)
      == FilteredTransactions(a, range, selected) + FilteredTransactions(b, range, selected)
  {
    match range
    case MonthOnly => FilterConcat(a, b, OfMonth(selected));
    case AllTime =>
    case _ =>
      FilterConcat(a, b, DatedWithin(Calendar.MonthStart(selected - BackMonths(range)), Calendar.MonthEnd(selected)));
  }

  // ---------------------------------------------------------------------------
  // Savings summary
  // ---------------------------------------------------------------------------

  datatype SavingsData = SavingsData(totalIncome: real, totalExpense: real, totalSavings: real, savingsRate: int, count: nat)

  /** `savingsData`: the totals of the filtered records and the rounded savings rate. */
  function SavingsDataOf(filtered: seq<Transaction>): (r: SavingsData)
    ensures r.totalIncome == Sum(Filter(filtered, IsIncome))
    ensures r.totalExpense == Sum(Filter(filtered, NotIncome))
    ensures r.totalIncome + r.totalExpense == Sum(filtered)
    ensures r.totalSavings == r.totalIncome - r.totalExpense
    ensures r.savingsRate == RoundedRate(r.totalIncome, r.totalExpense)
    ensures r.totalIncome <= 0.0 ==> r.savingsRate == 0
    ensures r.totalIncome > 0.0 && 0.0 <= r.totalExpense <= r.totalIncome ==> 0 <= r.savingsRate <= 100
    ensures r.count == |filtered|
  {
    var totals := Split(filtered);
    SplitPartitions(filtered);
    var rate := if totals.income > 0.0 then Round(totals.Rate()) else 0;
    SavingsData(totals.income, totals.expense, totals.Savings(), rate, |filtered|)
  }

  // ---------------------------------------------------------------------------
  // Days without spending
  // ---------------------------------------------------------------------------

  /** An inclusive range of day numbers. */
  datatype Span = Span(start: int, end: int)

  /**
   * The range the count covers: the selected month, the rolling window, or
   * from the oldest record through today; none when there are no records.
   */
  function SpanOf(range: Range, selected: int, today: int, sortedAll: seq<Transaction>): Option<Span>
  {
    match range
    case MonthOnly => Some(Span(Calendar.MonthStart(selected), Calendar.MonthEnd(selected)))
    case AllTime =>
      if |sortedAll| == 0 then None else Some(Span(sortedAll[|sortedAll| - 1].date, today))
    case _ => Some(Span(Calendar.MonthStart(selected - BackMonths(range)), Calendar.MonthEnd(selected)))
  }

  /** The distinct days that carry at least one expense. */
  function ExpenseDays(filtered: seq<Transaction>): set<int>
  {
    set t | t in filtered && IsExpense(t) :: t.date
  }

  /** The days `lo..hi`. */
  function Days(lo: int, hi: int): (ds: set<int>)
    ensures forall d :: d in ds <==> lo <= d <= hi
    decreases hi - lo
  {
    if lo > hi then {} else Days(lo, hi - 1) + {hi}
  }

  lemma {:induction false} DaysCard(lo: int, hi: int)
    requires lo <= hi + 1
    ensures |Days(lo, hi)| == hi - lo + 1
    decreases hi - lo
  {
    if lo <= hi {
      DaysCard(lo, hi - 1);
    }
  }

  /**
   * `noSpendDaysCount` as written: the days of the span up to today, less
   * the number of distinct expense days among the filtered records, at
   * least 0.
   */
  function NoSpendDays(range: Range, selected: int, today: int, filtered: seq<Transaction>,
                       sortedAll: seq<Transaction>): (n: nat)
    ensures SpanOf(range, selected, today, sortedAll).None? ==> n == 0
    ensures SpanOf(range, selected, today, sortedAll).Some? ==>
      var sp := SpanOf(range, selected, today, sortedAll).value;
      && (sp.start > today ==> n == 0)
      && (sp.start <= today ==> n <= Min(sp.end, today) - sp.start + 1 || n == 0)
  {
    match SpanOf(range, selected, today, sortedAll)
    case None => 0
    case Some(sp) =>
      var end := Min(sp.end, today);
      if sp.start > today then 0
      else
        var total := end - sp.start + 1;
        var n := total - |ExpenseDays(filtered)|;
        if n > 0 then n else 0
  }

  /**
   * The days of the span, through today, on which no filtered record is an
   * expense.
   */
  function SpendFreeDays(sp: Span, today: int, filtered: seq<Transaction>): set<int>
  {
    Days(sp.start, Min(sp.end, today)) - ExpenseDays(filtered)
  }

  /**
   * The evidently intended count: expense days outside the span (such as
   * future-dated records of the current month) are not subtracted.
   */
  function NoSpendDaysWithin(range: Range, selected: int, today: int, filtered: seq<Transaction>,
                             sortedAll: seq<Transaction>): (n: nat)
    ensures SpanOf(range, selected, today, sortedAll).None? ==> n == 0
    ensures SpanOf(range, selected, today, sortedAll).Some? ==>
      var sp := SpanOf(range, selected, today, sortedAll).value;
      && (sp.start > today ==> n == 0)
      && (sp.start <= today ==> n == |SpendFreeDays(sp, today, filtered)|)
  {
    match SpanOf(range, selected, today, sortedAll)
    case None => 0
    case Some(sp) =>
      var end := Min(sp.end, today);
      if sp.start > today then 0
      else
        SpendFreeCount(sp.start, end, ExpenseDays(filtered));
        (end - sp.start + 1) - |Days(sp.start, end) * ExpenseDays(filtered)|
  }

  /** The spend-free days of `lo..hi` are its days less the expense days among them. */
  lemma SpendFreeCount(lo: int, hi: int, spentDays: set<int>)
    requires lo <= hi
    ensures |Days(lo, hi) - spentDays| == (hi - lo + 1) - |Days(lo, hi) * spentDays|
  {
    var days := Days(lo, hi);
    var spent := days * spentDays;
    DaysCard(lo, hi);
    SubsetCard(spent, days);
    assert days - spentDays == days - spent;
  }

  lemma SubsetCard(a: set<int>, b: set<int>)
    requires a <= b
    ensures |b - a| == |b| - |a|
  {
    assert b == (b - a) + a;
  }

  function Coffee(date: int): Transaction
  {
    Transaction("c", "Coffee", 80.0, Expense, "Food & Dining", date, None, NoStatus, None)
  }

  /** January 2024 runs from day 19723 to day 19753. */
  lemma January2024()
    ensures Calendar.MonthStart(2024 * 12) == 19723
    ensures Calendar.MonthEnd(2024 * 12) == 19753
  {
    assert 24288 / 12 == 2024 && 24288 % 12 == 0;
    assert 24289 / 12 == 2024 && 24289 % 12 == 1;
    assert 2023 / 400 == 5 && 23 / 4 == 5 && 23 / 100 == 0;
    assert (153 * 10 + 2) / 5 == 306 && (153 * 11 + 2) / 5 == 337;
    assert Calendar.DaysFromCivil(2024, 1, 1) == 19723;
    assert Calendar.DaysFromCivil(2024, 2, 1) == 19754;
  }

  /**
   * On 1 January 2024, one expense dated 10 January leaves no spend-free day
   * in the month view's count as written, although that day had no expense;
   * the intended count is 1.
   */
  lemma FutureExpenseHidesToday()
    ensures var selected := 2024 * 12;
      var today := Calendar.MonthStart(selected);
      var later := [Coffee(today + 9)];
      && NoSpendDays(MonthOnly, selected, today, later, later) == 0
      && NoSpendDaysWithin(MonthOnly, selected, today, later, later) == 1
  {
    var selected := 2024 * 12;
    January2024();
    var today := 19723;
    var later := [Coffee(today + 9)];
    assert ExpenseDays(later) == {today + 9};
    assert Days(today, today) == {today};
    assert Days(today, today) - ExpenseDays(later) == {today};
  }

  // ---------------------------------------------------------------------------
  // Confidence
  // ---------------------------------------------------------------------------

  datatype ConfidenceState = Stable | Stretched | Attention

  /** Better states rank higher. */
  function Rank(s: ConfidenceState): int
  {
    match s
    case Stable => 2
    case Stretched => 1
    case Attention => 0
  }

  /** The three component scores. */
  datatype Scores = Scores(savings: int, runway: real, velocity: int)
  {
    function Total(): real { savings as real + runway + velocity as real }
  }

  function MaxReal(a: real, b: real): real { if a >= b then a else b }
  function MinReal(a: real, b: real): real { if a <= b then a else b }

  /** `x || 1` on a finite number: zero becomes 1. */
  function OrOne(x: real): real { if x == 0.0 then 1.0 else x }

  /** `Math.max(0, Math.min(sRate * 2, 40))`. */
  function SavingsScore(sRate: int): (s: int)
    ensures 0 <= s <= 40
    ensures sRate <= 0 ==> s == 0
    ensures sRate >= 20 ==> s == 40
    ensures 0 <= sRate <= 20 ==> s == 2 * sRate
  {
    if sRate * 2 >= 40 then 40 else if sRate * 2 <= 0 then 0 else sRate * 2
  }

  /**
   * The runway score: 20 by default, 0 with a non-positive balance, and in
   * the current month with a positive balance 15 times the ratio of the
   * daily allowance left (`balance / daysLeft`) to the average daily spend so
   * far, clamped to [0, 30]. `dom` is today's day of the month and `dim` the
   * month's length.
   */
  function RunwayScore(balance: real, totalExp: real, isCurrentMonth: bool, dom: int, dim: int): (s: real)
    requires 1 <= dom <= dim
    ensures 0.0 <= s <= 30.0
    ensures balance <= 0.0 ==> s == 0.0
    ensures !isCurrentMonth && balance > 0.0 ==> s == 20.0
  {
    if isCurrentMonth && balance > 0.0 then
      var daysLeft := dim - dom + 1;
      var dailyAllowable := balance / daysLeft as real;
      var avgDailySpend := OrOne(totalExp / dom as real);
      var runwayRatio := dailyAllowable / avgDailySpend;
      MaxReal(0.0, MinReal(runwayRatio * 15.0, 30.0))
    else if balance <= 0.0 then 0.0
    else 20.0
  }

  /**
   * The velocity score: 0 when the last seven days' daily spend exceeds 1.5
   * times the period's daily average, 15 when it exceeds 1.2 times, else 30.
   */
  function VelocityScore(recentTotal: real, totalExp: real, periodDays: int): (s: int)
    requires periodDays >= 1
    ensures s == 0 || s == 15 || s == 30
    ensures s == 0 <==> recentTotal / 7.0 > OrOne(totalExp / periodDays as real) * 1.5
    ensures OrOne(totalExp / periodDays as real) > 0.0 ==>
      (s == 30 <==> recentTotal / 7.0 <= OrOne(totalExp / periodDays as real) * 1.2)
  {
    var recentDaily := recentTotal / 7.0;
    var periodDaily := OrOne(totalExp / periodDays as real);
    if recentDaily > periodDaily * 1.5 then 0
    else if recentDaily > periodDaily * 1.2 then 15
    else 30
  }

  /** The period the average daily spend is taken over: today's day of the month, or 90 or 180 days. */
  function PeriodDays(range: Range, dom: int): int
  {
    match range
    case MonthOnly => dom
    case ThreeMonths => 90
    case _ => 180
  }

  /** Stable from 65, stretched from 35, otherwise attention. */
  function StateOf(total: real): (s: ConfidenceState)
    ensures s == Stable <==> total >= 65.0
    ensures s == Stretched <==> 35.0 <= total < 65.0
    ensures s == Attention <==> total < 35.0
  {
    if total >= 65.0 then Stable else if total >= 35.0 then Stretched else Attention
  }

  /** A higher total never gives a worse state. */
  lemma StateMonotone(a: real, b: real)
    requires a <= b
    ensures Rank(StateOf(a)) <= Rank(StateOf(b))
  {
  }

  /** An expense dated within the last seven days (after today minus 7 days). */
  function RecentExpense(today: int): Transaction -> bool
  {
    (t: Transaction) => IsExpense(t) && t.date >= today - 6
  }

  /**
   * The component scores of a non-empty filtered set: the savings score of
   * the rounded rate, the runway score, which treats the selected month as
   * current when today falls in it (otherwise a positive balance scores 20),
   * and the velocity score of the last seven days' spending against the
   * period's daily average.
   */
  function ScoresOf(filtered: seq<Transaction>, range: Range, selected: int, today: int, dom: int, dim: int): (r: Scores)
    requires 1 <= dom <= dim
    ensures 0 <= r.savings <= 40
    ensures 0.0 <= r.runway <= 30.0
    ensures r.velocity == 0 || r.velocity == 15 || r.velocity == 30
    ensures Split(filtered).Savings() <= 0.0 ==> r.runway == 0.0
    ensures Calendar.MonthOf(today) != selected && Split(filtered).Savings() > 0.0 ==> r.runway == 20.0
    ensures r.savings == SavingsScore(SavingsDataOf(filtered).savingsRate)
    ensures r.velocity == 0 <==>
      Sum(Filter(filtered, RecentExpense(today))) / 7.0 > OrOne(Sum(Filter(filtered, IsExpense)) / PeriodDays(range, dom) as real) * 1.5
    ensures 0.0 <= r.Total() <= 100.0
  {
    var data := SavingsDataOf(filtered);
    var totalExp := Sum(Filter(filtered, IsExpense));
    var recentTotal := Sum(Filter(filtered, RecentExpense(today)));
    Scores(
      SavingsScore(data.savingsRate),
      RunwayScore(data.totalSavings, totalExp, Calendar.MonthOf(today) == selected, dom, dim),
      VelocityScore(recentTotal, totalExp, PeriodDays(range, dom)))
  }

  /**
   * `confidenceData`: stable for an empty set, otherwise the band of the
   * total of the three scores.
   */
  function Confidence(filtered: seq<Transaction>, range: Range, selected: int, today: int, dom: int, dim: int): (s: ConfidenceState)
    requires 1 <= dom <= dim
    ensures |filtered| == 0 ==> s == Stable
    ensures |filtered| > 0 ==> s == StateOf(ScoresOf(filtered, range, selected, today, dom, dim).Total())
  {
    if |filtered| == 0 then Stable
    else StateOf(ScoresOf(filtered, range, selected, today, dom, dim).Total())
  }

  /**
   * A better savings rate never worsens the state when runway and velocity
   * are the same.
   */
  lemma ConfidenceMonotoneInRate(rate1: int, rate2: int, runway: real, velocity: int)
    requires rate1 <= rate2
    ensures Rank(StateOf(Scores(SavingsScore(rate1), runway, velocity).Total()))
      <= Rank(StateOf(Scores(SavingsScore(rate2), runway, velocity).Total()))
  {
    StateMonotone(Scores(SavingsScore(rate1), runway, velocity).Total(), Scores(SavingsScore(rate2), runway, velocity).Total());
  }

  /** Without positive savings the rounded savings rate is not positive. */
  lemma RateNotPositive(t: Totals)
    requires t.Savings() <= 0.0
    ensures t.income > 0.0 ==> Round(t.Rate()) <= 0
  {
    if t.income > 0.0 {
      var q := (t.income - t.expense) / t.income;
      assert q <= 0.0;
    }
  }

  /**
   * Without positive savings, the savings and runway scores are 0 and only
   * velocity counts, so the state is attention.
   */
  lemma NoSavingsNeedsAttention(filtered: seq<Transaction>, range: Range, selected: int, today: int, dom: int, dim: int)
    requires 1 <= dom <= dim
    requires |filtered| > 0
    requires Split(filtered).Savings() <= 0.0
    ensures Confidence(filtered, range, selected, today, dom, dim) == Attention
  {
    RateNotPositive(Split(filtered));
    var r := ScoresOf(filtered, range, selected, today, dom, dim);
    assert r.savings == 0;
  }

  /**
   * A non-empty set saving at least 20% with steady recent spending is
   * stable, whatever the runway: the savings score 40 and the velocity score
   * 30 alone reach 65.
   */
  lemma SavingAndSteadyIsStable(filtered: seq<Transaction>, range: Range, selected: int, today: int, dom: int, dim: int)
    requires 1 <= dom <= dim
    requires |filtered| > 0
    requires SavingsDataOf(filtered).savingsRate >= 20
    requires ScoresOf(filtered, range, selected, today, dom, dim).velocity == 30
    ensures Confidence(filtered, range, selected, today, dom, dim) == Stable
  {
    var r := ScoresOf(filtered, range, selected, today, dom, dim);
    assert r.savings == 40;
  }
}
