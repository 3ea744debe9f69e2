/**
 * The insight engine: month-over-month category drift, micro-leak
 * accumulation over the current week or month, and the selection of the
 * single daily insight by fixed priority formulas with a date-indexed tip as
 * the fallback.
 */
module Insights {
  import opened Text
  import opened Ledger
  import Calendar

  /**
   * `categoryLabels[cat] || cat`: the display label of a category slug, or
   * the category itself when it is not a known slug.
   */
  function CategoryLabel(c: string): string
  {
    if c == "food" then "Food & Dining"
    else if c == "transport" then "Transportation"
    else if c == "shopping" then "Shopping"
    else if c == "bills" then "Bills & Utilities"
    else if c == "entertainment" then "Entertainment"
    else if c == "health" then "Healthcare"
    else if c == "education" then "Education"
    else if c == "other" then "Other"
    else c
  }

  // ---------------------------------------------------------------------------
  // Category drift
  // ---------------------------------------------------------------------------

  datatype Drift = Drift(category: string, labelText: string, percent: int, current: real, prev: real)

  /** `((current - prev) / prev) * 100`. */
  function PercentIncrease(current: real, prev: real): real
    requires prev > 0.0
  {
    (current - prev) / prev * 100.0
  }

  /** The drift entry for `cat`, when its rise over `prev` exceeds 30%. */
  predicate Drifts(current: real, prev: real)
  {
    prev > 0.0 && PercentIncrease(current, prev) > 30.0
  }

  /** One pass over the current totals, in their key order. */
  function DriftsOf(cur: seq<Entry>, prevTotals: seq<Entry>): (r: seq<Drift>)
    requires DistinctKeys(cur)
    ensures forall d :: d in r ==>
      && d.category in KeysOf(cur)
      && d.current == Lookup(cur, d.category)
      && d.prev == Lookup(prevTotals, d.category)
      && Drifts(d.current, d.prev)
      && d.percent == Round(PercentIncrease(d.current, d.prev))
      && d.labelText == CategoryLabel(d.category)
    ensures forall i, j :: 0 <= i < j < |r| ==> r[i].category != r[j].category
    ensures forall c :: c in KeysOf(cur) ==>
      ((exists d :: d in r && d.category == c) <==> Drifts(Lookup(cur, c), Lookup(prevTotals, c)))
  {
    if |cur| == 0 then []
    else
      var e := cur[0];
      var prev := Lookup(prevTotals, e.key);
      var rest := DriftsOf(cur[1..], prevTotals);
      assert KeysOf(cur) == [e.key] + KeysOf(cur[1..]);
      HeadKeyNotInTail(cur);
      assert forall c :: c in KeysOf(cur[1..]) ==> Lookup(cur, c) == Lookup(cur[1..], c);
      if Drifts(e.total, prev) then
        var d := Drift(e.key, CategoryLabel(e.key), Round(PercentIncrease(e.total, prev)), e.total, prev);
        ConsDistinctCategory(d, rest, KeysOf(cur[1..]));
        [d] + rest
      else
        rest
  }

  /** Prepending an entry for a category not among the tail's keeps the categories distinct. */
  lemma ConsDistinctCategory(d: Drift, rest: seq<Drift>, tailKeys: seq<string>)
    requires d.category !in tailKeys
    requires forall x :: x in rest ==> x.category in tailKeys
    requires forall i, j :: 0 <= i < j < |rest| ==> rest[i].category != rest[j].category
    ensures forall i, j :: 0 <= i < j < |[d] + rest| ==> ([d] + rest)[i].category != ([d] + rest)[j].category
  {
    forall i, j | 0 <= i < j < |[d] + rest|
      ensures ([d] + rest)[i].category != ([d] + rest)[j].category
    {
      assert ([d] + rest)[j] == rest[j - 1] && rest[j - 1] in rest;
      if i > 0 {
        assert ([d] + rest)[i] == rest[i - 1];
      }
    }
  }

  /** The expense total of category `c` in month `month`. */
  function MonthCategoryExpense(txs: seq<Transaction>, month: int, c: string): real
  {
    CategorySum(Filter(txs, ExpenseOfMonth(month)), c)
  }

  /**
   * `detectCategoryDrift`: for every category with expenses in the target
   * month and a positive previous-month total, an entry when the rise
   * exceeds 30%, with the rounded percentage.
   */
  function DetectCategoryDrift(txs: seq<Transaction>, target: int): (r: seq<Drift>)
    ensures forall d :: d in r ==>
      && (exists t :: t in txs && IsExpense(t) && MonthOf(t) == target && t.category == d.category)
      && d.current == MonthCategoryExpense(txs, target, d.category)
      && d.prev == MonthCategoryExpense(txs, target - 1, d.category)
      && d.prev > 0.0
      && PercentIncrease(d.current, d.prev) > 30.0
      && d.percent == Round(PercentIncrease(d.current, d.prev))
      && d.percent >= 30
      && d.labelText == CategoryLabel(d.category)
    ensures forall i, j :: 0 <= i < j < |r| ==> r[i].category != r[j].category
    ensures forall c :: (exists t :: t in txs && IsExpense(t) && MonthOf(t) == target && t.category == c) ==>
      ((exists d :: d in r && d.category == c)
        <==> Drifts(MonthCategoryExpense(txs, target, c), MonthCategoryExpense(txs, target - 1, c)))
  {
    var curTx := Filter(txs, ExpenseOfMonth(target));
    var prevTx := Filter(txs, ExpenseOfMonth(target - 1));
    CategoryTotalsCorrect(curTx);
    CategoryTotalsCorrect(prevTx);
    var cur := CategoryTotals(curTx);
    var r := DriftsOf(cur, CategoryTotals(prevTx));
    forall c | exists t :: t in txs && IsExpense(t) && MonthOf(t) == target && t.category == c
      ensures c in KeysOf(cur)
    {
      var t :| t in txs && IsExpense(t) && MonthOf(t) == target && t.category == c;
      assert ExpenseOfMonth(target)(t);
      assert t in curTx;
    }
    forall d | d in r
      ensures exists t :: t in txs && IsExpense(t) && MonthOf(t) == target && t.category == d.category
    {
      var t :| t in curTx && t.category == d.category;
      assert ExpenseOfMonth(target)(t);
    }
    r
  }

  /** Previous 100 and current 140 give a 40% entry; current 130 gives none. */
  lemma DriftThresholdExamples()
    ensures Drifts(140.0, 100.0) && Round(PercentIncrease(140.0, 100.0)) == 40
    ensures !Drifts(130.0, 100.0) && !Drifts(125.0, 100.0)
  {
  }

  /**
   * Only expenses of the target month and of the month before feed the
   * drift entries: adding any other record changes nothing.
   */
  lemma DriftIgnoresOtherRecords(txs: seq<Transaction>, t: Transaction, target: int)
    requires !IsExpense(t) || (MonthOf(t) != target && MonthOf(t) != target - 1)
    ensures DetectCategoryDrift(txs + [t], target) == DetectCategoryDrift(txs, target)
  {
    FilterConcat(txs, [t], ExpenseOfMonth(target));
    FilterConcat(txs, [t], ExpenseOfMonth(target - 1));
    assert Filter([t], ExpenseOfMonth(target)) == [];
    assert Filter([t], ExpenseOfMonth(target - 1)) == [];
    assert Filter(txs, ExpenseOfMonth(target)) + [] == Filter(txs, ExpenseOfMonth(target));
    assert Filter(txs, ExpenseOfMonth(target - 1)) + [] == Filter(txs, ExpenseOfMonth(target - 1));
  }

  // ---------------------------------------------------------------------------
  // Micro-leaks
  // ---------------------------------------------------------------------------

  datatype LeakPeriod = Weekly | Monthly

  datatype MicroLeak = MicroLeak(period: LeakPeriod, total: real, count: nat, message: string)

  /** A small expense: amount in the inclusive range [50, 200]. */
  predicate IsMicro(t: Transaction)
  {
    IsExpense(t) && 50.0 <= t.amount <= 200.0
  }

  /** A small expense dated on or after `start`. */
  function MicroSince(start: int): Transaction -> bool
  {
    t => IsMicro(t) && t.date >= start
  }

  /** Amounts in leak messages: the integer part (see README). */
  function AmountText(x: real): string
  {
    IntToString(x.Floor)
  }

  function LeakMessage(period: LeakPeriod, total: real, count: nat): string
  {
    match period
    case Weekly =>
      "You've spent ₹" + AmountText(total) + " on " + NatToString(count)
        + " small purchases this week. These small leaks add up quickly."
    case Monthly =>
      "Small daily expenses reached ₹" + AmountText(total) + " this month (" + NatToString(count)
        + " items). Consider if some could be avoided."
  }

  /** The micro expenses since the start of `today`'s week. */
  function WeeklyMicro(txs: seq<Transaction>, today: int): seq<Transaction>
  {
    Filter(txs, MicroSince(Calendar.WeekStart(today)))
  }

  /** The micro expenses since the start of `today`'s month. */
  function MonthlyMicro(txs: seq<Transaction>, today: int): seq<Transaction>
  {
    Filter(txs, MicroSince(Calendar.MonthStart(Calendar.MonthOf(today))))
  }

  /**
   * `detectMicroLeaks`: a weekly insight when the week's micro expenses sum
   * to at least 500, else a monthly one when the month's reach 1500, else
   * none; total and count describe the counted records.
   */
  function DetectMicroLeaks(txs: seq<Transaction>, today: int): (r: Option<MicroLeak>)
    ensures r.Some? && r.value.period == Weekly <==> Sum(WeeklyMicro(txs, today)) >= 500.0
    ensures r.Some? && r.value.period == Monthly
      <==> Sum(WeeklyMicro(txs, today)) < 500.0 && Sum(MonthlyMicro(txs, today)) >= 1500.0
    ensures r.None? <==> Sum(WeeklyMicro(txs, today)) < 500.0 && Sum(MonthlyMicro(txs, today)) < 1500.0
    ensures r.Some? && r.value.period == Weekly ==>
      r.value.total == Sum(WeeklyMicro(txs, today)) && r.value.count == |WeeklyMicro(txs, today)|
    ensures r.Some? && r.value.period == Monthly ==>
      r.value.total == Sum(MonthlyMicro(txs, today)) && r.value.count == |MonthlyMicro(txs, today)|
  {
    var weekly := WeeklyMicro(txs, today);
    var monthly := MonthlyMicro(txs, today);
    var weeklyTotal := Sum(weekly);
    var monthlyTotal := Sum(monthly);
    if weeklyTotal >= 500.0 then
      Some(MicroLeak(Weekly, weeklyTotal, |weekly|, LeakMessage(Weekly, weeklyTotal, |weekly|)))
    else if monthlyTotal >= 1500.0 then
      Some(MicroLeak(Monthly, monthlyTotal, |monthly|, LeakMessage(Monthly, monthlyTotal, |monthly|)))
    else
      None
  }

  /**
   * A counted record is an expense of 50 to 200 dated on or after the start
   * of the current week (weekly) or month (monthly).
   */
  lemma CountedRecordsAreMicro(txs: seq<Transaction>, today: int, t: Transaction)
    ensures t in WeeklyMicro(txs, today) <==>
      t in txs && IsExpense(t) && 50.0 <= t.amount <= 200.0 && t.date >= Calendar.WeekStart(today)
    ensures t in MonthlyMicro(txs, today) <==>
      t in txs && IsExpense(t) && 50.0 <= t.amount <= 200.0
      && t.date >= Calendar.MonthStart(Calendar.MonthOf(today))
  {
  }

  function Coffee(id: string, date: int): Transaction
  {
    Transaction(id, "Coffee", 100.0, Expense, "Food & Dining", date, None, NoStatus, None)
  }

  /** Five expenses of 100 dated today make a weekly leak of 500 over 5 purchases. */
  lemma FiveHundredThisWeek(today: int)
    ensures var txs := [Coffee("1", today), Coffee("2", today), Coffee("3", today), Coffee("4", today), Coffee("5", today)];
      var r := DetectMicroLeaks(txs, today);
      r.Some? && r.value.period == Weekly && r.value.total == 500.0 && r.value.count == 5
  {
    var txs := [Coffee("1", today), Coffee("2", today), Coffee("3", today), Coffee("4", today), Coffee("5", today)];
    var p := MicroSince(Calendar.WeekStart(today));
    assert forall t :: t in txs ==> p(t);
    FilterKeepsAll(txs, p);
    assert Sum(txs[4..]) == 100.0;
    assert Sum(txs[3..]) == 200.0 by { assert txs[3..][1..] == txs[4..]; }
    assert Sum(txs[2..]) == 300.0 by { assert txs[2..][1..] == txs[3..]; }
    assert Sum(txs[1..]) == 400.0 by { assert txs[1..][1..] == txs[2..]; }
  }

  // ---------------------------------------------------------------------------
  // Daily insight
  // ---------------------------------------------------------------------------

  datatype InsightType = SubscriptionInsight | DeclineInsight | LeakInsight | DriftInsight | TipInsight

  datatype Candidate = Candidate(kind: InsightType, priority: real, message: string)

  const Tips: seq<string> := [
    "Tracking every expense, no matter how small, is the first step to financial freedom.",
    "Consider the '50/30/20' rule: 50% Needs, 30% Wants, and 20% Savings.",
    "Automating your savings ensures you pay yourself first every month.",
    "Before an impulse purchase, wait 24 hours. Most of the time, the urge passes.",
    "Small changes in daily habits, like brewing coffee at home, can save thousands annually.",
    "Your net worth is more important than your salary. Focus on assets, not just income.",
    "Emergency funds are for peace of mind, not just for emergencies.",
    "Reviewing your subscriptions monthly can catch 'zombie' payments for services you no longer use.",
    "The best investment you can make is in your own financial education.",
    "Compound interest is the eighth wonder of the world. Start saving early."
  ]

  /** `(year + month + day) % financialTips.length` for today's date. */
  function TipIndex(today: int): (i: nat)
    ensures i < |Tips|
    ensures var c := Calendar.CivilFromDays(today); i == (c.year + c.month + c.day) % 10
  {
    Calendar.DateHash(today) % |Tips|
  }

  /**
   * A confirmed or detected record created within the last seven days. A
   * record without a creation time counts as created now, as `dayjs(undefined)`
   * is the current instant.
   */
  function RecentSubscription(now: int): Transaction -> bool
  {
    (t: Transaction) => (t.status == Confirmed || t.status == Detected)
      && (t.createdAt.None? || t.createdAt.value > now - 7 * Calendar.MillisPerDay)
  }

  const SubscriptionMessage: string :=
    "New subscription activity detected recently. Periodic review prevents \"zombie\" costs."
  const DeclineMessage: string :=
    "Savings rate is down compared to last month. Consider a quick audit of non-essential costs."

  function DriftMessage(d: Drift): string
  {
    d.labelText + " spending is up by " + IntToString(d.percent) + "% this month. Monitor this trend closely."
  }

  function DriftCandidates(drifts: seq<Drift>): (cs: seq<Candidate>)
    ensures |cs| == |drifts|
    ensures forall i :: 0 <= i < |drifts| ==>
      cs[i] == Candidate(DriftInsight, (40 + drifts[i].percent / 5) as real, DriftMessage(drifts[i]))
  {
    if |drifts| == 0 then []
    else
      var d := drifts[0];
      [Candidate(DriftInsight, (40 + d.percent / 5) as real, DriftMessage(d))] + DriftCandidates(drifts[1..])
  }

  function SubscriptionCandidates(txs: seq<Transaction>, now: int): seq<Candidate>
  {
    if |Filter(txs, RecentSubscription(now))| > 0 then [Candidate(SubscriptionInsight, 80.0, SubscriptionMessage)]
    else []
  }

  function DeclineCandidates(txs: seq<Transaction>, month: int): seq<Candidate>
  {
    var currentRate := MonthRate(txs, month);
    var prevRate := MonthRate(txs, month - 1);
    if currentRate < prevRate - 5.0 then [Candidate(DeclineInsight, 70.0 + (prevRate - currentRate), DeclineMessage)]
    else []
  }

  /** The leak candidate; its severity bonus is capped at 20. */
  function LeakCandidates(leak: Option<MicroLeak>): (cs: seq<Candidate>)
    ensures forall c :: c in cs ==> c.priority <= 70.0
    ensures |cs| == (if leak.Some? then 1 else 0)
    ensures leak.Some? ==> cs[0].kind == LeakInsight && cs[0].message == leak.value.message
    ensures leak.Some? && leak.value.total >= 0.0 ==> 50.0 <= cs[0].priority
    ensures leak.Some? ==> (cs[0].priority == 70.0 <==> leak.value.total >= 2000.0)
    ensures leak.Some? && leak.value.total < 2000.0 ==>
      cs[0].priority == (50 + (leak.value.total / 100.0).Floor) as real
  {
    match leak
    case Some(l) => [Candidate(LeakInsight, (50 + Min(20, (l.total / 100.0).Floor)) as real, l.message)]
    case None => []
  }

  function TipCandidate(today: int): Candidate
  {
    Candidate(TipInsight, 10.0, Tips[TipIndex(today)])
  }

  /**
   * The candidate list, in the order the source pushes them: subscription
   * activity, savings decline, micro-leak, one per drift entry, and the tip.
   */
  function Candidates(drifts: seq<Drift>, leak: Option<MicroLeak>, txs: seq<Transaction>,
                      month: int, today: int, now: int): seq<Candidate>
  {
    SubscriptionCandidates(txs, now) + DeclineCandidates(txs, month) + LeakCandidates(leak)
      + DriftCandidates(drifts) + [TipCandidate(today)]
  }

  /** `a` sorts strictly before `b`: higher priority, or equal priority and smaller message. */
  predicate Before(a: Candidate, b: Candidate)
  {
    a.priority > b.priority || (a.priority == b.priority && Less(a.message, b.message))
  }

  lemma BeforeTransitive(a: Candidate, b: Candidate, c: Candidate)
    requires Before(a, b) && Before(b, c)
    ensures Before(a, c)
  {
    if a.priority == b.priority && b.priority == c.priority {
      LessTransitive(a.message, b.message, c.message);
    }
  }

  /** Two candidates neither of which sorts before the other have equal rank. */
  lemma BeforeTotal(a: Candidate, b: Candidate)
    requires !Before(a, b) && !Before(b, a)
    ensures a.priority == b.priority && a.message == b.message
  {
    LessTotal(a.message, b.message);
  }

  /**
   * The index the stable sort puts first: no candidate sorts before it, and
   * every earlier candidate sorts after it.
   */
  function BestIndex(cs: seq<Candidate>): (k: nat)
    requires |cs| > 0
    ensures k < |cs|
    ensures forall j :: 0 <= j < |cs| ==> !Before(cs[j], cs[k])
    ensures forall j :: 0 <= j < k ==> Before(cs[k], cs[j])
  {
    if |cs| == 1 then
      LessIrreflexive(cs[0].message);
      0
    else
      var n := |cs| - 1;
      var k := BestIndex(cs[..n]);
      assert forall j :: 0 <= j < n ==> cs[..n][j] == cs[j];
      if Before(cs[n], cs[k]) then
        LessIrreflexive(cs[n].message);
        forall j | 0 <= j < n
          ensures !Before(cs[j], cs[n]) && Before(cs[n], cs[j])
        {
          if Before(cs[j], cs[n]) {
            BeforeTransitive(cs[j], cs[n], cs[k]);
          }
          if !Before(cs[k], cs[j]) {
            BeforeTotal(cs[k], cs[j]);
          } else {
            BeforeTransitive(cs[n], cs[k], cs[j]);
          }
        }
        n
      else
        k
  }

  /**
   * `getDailyInsight`: the first candidate after sorting by priority
   * (descending) and message (ascending); the tip makes the list non-empty.
   */
  function GetDailyInsight(drifts: seq<Drift>, leak: Option<MicroLeak>, txs: seq<Transaction>,
                           month: int, today: int, now: int): (r: Candidate)
    ensures r in Candidates(drifts, leak, txs, month, today, now)
    ensures forall c :: c in Candidates(drifts, leak, txs, month, today, now) ==>
      c.priority <= r.priority && !Before(c, r)
  {
    var cs := Candidates(drifts, leak, txs, month, today, now);
    var k := BestIndex(cs);
    forall c | c in cs
      ensures c.priority <= cs[k].priority
    {
      var j :| 0 <= j < |cs| && cs[j] == c;
      assert !Before(cs[j], cs[k]);
    }
    cs[k]
  }

  /** With nothing else to report, the daily insight is the tip of the day. */
  lemma TipWhenNothingElse(txs: seq<Transaction>, month: int, today: int, now: int)
    requires |Filter(txs, RecentSubscription(now))| == 0
    requires !(MonthRate(txs, month) < MonthRate(txs, month - 1) - 5.0)
    ensures GetDailyInsight([], None, txs, month, today, now)
      == Candidate(TipInsight, 10.0, Tips[TipIndex(today)])
  {
    assert Candidates([], None, txs, month, today, now) == [TipCandidate(today)];
  }

  /** Every drift below 200% ranks below 80. */
  lemma DriftsBelowEighty(drifts: seq<Drift>)
    requires forall d :: d in drifts ==> d.percent < 200
    ensures forall c :: c in DriftCandidates(drifts) ==> c.priority < 80.0
  {
    var dcs := DriftCandidates(drifts);
    forall c | c in dcs
      ensures c.priority < 80.0
    {
      var i :| 0 <= i < |dcs| && dcs[i] == c;
      assert drifts[i] in drifts;
    }
  }

  /**
   * Recent subscription activity outranks every micro-leak, every drift below
   * 200% and the tip, so without a savings decline it is the daily insight.
   */
  lemma SubscriptionOutranks(drifts: seq<Drift>, leak: Option<MicroLeak>, txs: seq<Transaction>,
                             month: int, today: int, now: int)
    requires |Filter(txs, RecentSubscription(now))| > 0
    requires !(MonthRate(txs, month) < MonthRate(txs, month - 1) - 5.0)
    requires forall d :: d in drifts ==> d.percent < 200
    ensures GetDailyInsight(drifts, leak, txs, month, today, now).kind == SubscriptionInsight
  {
    var sub := Candidate(SubscriptionInsight, 80.0, SubscriptionMessage);
    var cs := Candidates(drifts, leak, txs, month, today, now);
    SubscriptionAndNoDecline(txs, month, now);
    OthersBelowEighty(drifts, leak, today);
    var r := GetDailyInsight(drifts, leak, txs, month, today, now);
    assert sub in cs;
    assert r in SubscriptionCandidates(txs, now) || r in LeakCandidates(leak) + DriftCandidates(drifts) + [TipCandidate(today)];
  }

  /** The two candidates these conditions decide: a subscription candidate and no decline candidate. */
  lemma SubscriptionAndNoDecline(txs: seq<Transaction>, month: int, now: int)
    requires |Filter(txs, RecentSubscription(now))| > 0
    requires !(MonthRate(txs, month) < MonthRate(txs, month - 1) - 5.0)
    ensures SubscriptionCandidates(txs, now) == [Candidate(SubscriptionInsight, 80.0, SubscriptionMessage)]
    ensures DeclineCandidates(txs, month) == []
  {
  }

  /** The micro-leak, every drift below 200% and the tip all rank below 80. */
  lemma OthersBelowEighty(drifts: seq<Drift>, leak: Option<MicroLeak>, today: int)
    requires forall d :: d in drifts ==> d.percent < 200
    ensures forall c :: c in LeakCandidates(leak) + DriftCandidates(drifts) + [TipCandidate(today)] ==> c.priority < 80.0
  {
    DriftsBelowEighty(drifts);
  }
}
