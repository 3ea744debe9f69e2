/**
 * The memory archivist: once a month has closed, its savings rate and its
 * largest spending category are condensed into at most one "memory anchor",
 * appended to a persisted list; later, the current month's spending is
 * checked against the anchors' thresholds, newest anchor first.
 */
module Archivist {
  import opened Text
  import opened Ledger
  import Calendar
  import Insights

  datatype AnchorKind = Consequence | Positive

  /**
   * A stored anchor: the month it describes, its kind, the category and
   * amount that trigger it, and the sentence shown when it fires.
   */
  datatype Anchor = Anchor(period: int, kind: AnchorKind, category: string, threshold: real, insight: string)

  /** What the persisted `memory_anchors` value holds. */
  datatype Stored = Absent | Unparsable | Parsed(anchors: seq<Anchor>)

  /** `getStoredAnchors`: the parsed list, or the empty list when absent or unreadable. */
  function GetStoredAnchors(stored: Stored): (r: seq<Anchor>)
    ensures stored.Parsed? ==> r == stored.anchors
    ensures !stored.Parsed? ==> r == []
  {
    match stored
    case Parsed(anchors) => anchors
    case _ => []
  }

  /**
   * What the pass writes reads back as its new list, and a pass over what was
   * read back writes nothing; a missing or unreadable store behaves as an
   * empty list.
   */
  lemma StoreRoundTrip(txs: seq<Transaction>, stored: Stored, today: int)
    ensures !stored.Parsed? ==>
      ArchivePreviousPeriods(txs, GetStoredAnchors(stored), today) == ArchivePreviousPeriods(txs, [], today)
    ensures Write(ArchivePreviousPeriods(txs, GetStoredAnchors(stored), today)).Some? ==>
      GetStoredAnchors(Parsed(Write(ArchivePreviousPeriods(txs, GetStoredAnchors(stored), today)).value))
      == ArchivePreviousPeriods(txs, GetStoredAnchors(stored), today).anchors
    ensures Write(ArchivePreviousPeriods(txs, GetStoredAnchors(stored), today)).Some? ==>
      Write(ArchivePreviousPeriods(txs,
        GetStoredAnchors(Parsed(Write(ArchivePreviousPeriods(txs, GetStoredAnchors(stored), today)).value)), today)).None?
  {
    ArchiveIdempotent(txs, GetStoredAnchors(stored), today);
  }

  /** Some anchor describes month `m`. */
  predicate HasPeriod(anchors: seq<Anchor>, m: int)
  {
    exists a :: a in anchors && a.period == m
  }

  /** No month has two anchors. */
  predicate UniquePeriods(anchors: seq<Anchor>)
  {
    forall i, j :: 0 <= i < j < |anchors| ==> anchors[i].period != anchors[j].period
  }

  // ---------------------------------------------------------------------------
  // Months to consider
  // ---------------------------------------------------------------------------

  /**
   * `Array.from(new Set(months)).filter(m => m !== current)`: the months
   * that have records, other than `current`, each once, in order of first
   * occurrence.
   */
  function ClosedMonths(txs: seq<Transaction>, current: int): (ms: seq<int>)
    ensures forall i, j :: 0 <= i < j < |ms| ==> ms[i] != ms[j]
    ensures forall m :: m in ms <==> m != current && exists t :: t in txs && MonthOf(t) == m
  {
    if |txs| == 0 then []
    else
      var init := txs[..|txs| - 1];
      var t := txs[|txs| - 1];
      var acc := ClosedMonths(init, current);
      assert txs == init + [t];
      if MonthOf(t) in acc || MonthOf(t) == current then acc else acc + [MonthOf(t)]
  }

  /** The month of each record, in order. */
  function MonthsOf(txs: seq<Transaction>): (r: seq<int>)
    ensures |r| == |txs|
    ensures forall i :: 0 <= i < |txs| ==> r[i] == MonthOf(txs[i])
  {
    seq(|txs|, i requires 0 <= i < |txs| => MonthOf(txs[i]))
  }

  /** The position of the first `m` in `xs`, or `|xs|` when there is none. */
  function FirstIndex(xs: seq<int>, m: int): (i: nat)
    ensures i <= |xs|
    ensures i < |xs| ==> xs[i] == m
    ensures forall k :: 0 <= k < i ==> xs[k] != m
  {
    if |xs| == 0 then 0
    else if xs[0] == m then 0
    else 1 + FirstIndex(xs[1..], m)
  }

  /**
   * The closed months come in order of their first record, as the
   * insertion order of a `Set` keeps them; this order decides the order
   * in which their anchors are appended.
   */
  lemma {:induction false} ClosedMonthsInOrder(txs: seq<Transaction>, current: int)
    ensures forall i :: 0 <= i < |ClosedMonths(txs, current)| ==>
      FirstIndex(MonthsOf(txs), ClosedMonths(txs, current)[i]) < |txs|
    ensures forall i, j :: 0 <= i < j < |ClosedMonths(txs, current)| ==>
      FirstIndex(MonthsOf(txs), ClosedMonths(txs, current)[i]) < FirstIndex(MonthsOf(txs), ClosedMonths(txs, current)[j])
  {
    if |txs| > 0 {
      var init := txs[..|txs| - 1];
      var t := txs[|txs| - 1];
      var acc := ClosedMonths(init, current);
      var ms := ClosedMonths(txs, current);
      ClosedMonthsInOrder(init, current);
      assert txs == init + [t];
      assert MonthsOf(txs) == MonthsOf(init) + [MonthOf(t)];
      var isNew := !(MonthOf(t) in acc || MonthOf(t) == current);
      assert ms == if isNew then acc + [MonthOf(t)] else acc;
      if isNew {
        NewMonthIsLast(init, t, current, acc);
      }
      FirstIndexOrderStep(MonthsOf(init), MonthOf(t), acc, isNew, ms);
    }
  }

  /**
   * Appending `x` keeps the first position of a value already present;
   * a value first seen in `x` gets its position.
   */
  lemma FirstIndexSnoc(xs: seq<int>, x: int, m: int)
    ensures FirstIndex(xs + [x], m) ==
      if FirstIndex(xs, m) < |xs| || x == m then FirstIndex(xs, m) else |xs| + 1
  {
    var ys := xs + [x];
    var b := FirstIndex(xs, m);
    if b < |xs| {
      assert ys[b] == xs[b];
    } else {
      assert ys[|xs|] == x;
    }
  }

  /** The step of `ClosedMonthsInOrder`, with the closed months so far as `acc`. */
  lemma FirstIndexOrderStep(xs: seq<int>, x: int, acc: seq<int>, isNew: bool, ms: seq<int>)
    requires forall i :: 0 <= i < |acc| ==> FirstIndex(xs, acc[i]) < |xs|
    requires forall i, j :: 0 <= i < j < |acc| ==> FirstIndex(xs, acc[i]) < FirstIndex(xs, acc[j])
    requires isNew ==> FirstIndex(xs, x) == |xs|
    requires ms == if isNew then acc + [x] else acc
    ensures forall i :: 0 <= i < |ms| ==> FirstIndex(xs + [x], ms[i]) < |xs + [x]|
    ensures forall i, j :: 0 <= i < j < |ms| ==> FirstIndex(xs + [x], ms[i]) < FirstIndex(xs + [x], ms[j])
  {
    var ys := xs + [x];
    forall i | 0 <= i < |acc|
      ensures ms[i] == acc[i] && FirstIndex(ys, ms[i]) == FirstIndex(xs, acc[i])
    {
      FirstIndexSnoc(xs, x, acc[i]);
    }
    if isNew {
      FirstIndexSnoc(xs, x, x);
      assert FirstIndex(ys, ms[|acc|]) == |xs|;
    }
    forall i, j | 0 <= i < j < |ms|
      ensures FirstIndex(ys, ms[i]) < FirstIndex(ys, ms[j])
    {
      if j < |acc| {
        assert FirstIndex(xs, acc[i]) < FirstIndex(xs, acc[j]);
      } else {
        assert FirstIndex(xs, acc[i]) < |xs|;
      }
    }
  }

  /** A month first seen in the last record comes after every month seen before. */
  lemma NewMonthIsLast(init: seq<Transaction>, t: Transaction, current: int, acc: seq<int>)
    requires forall m :: m in acc <==> m != current && exists x :: x in init && MonthOf(x) == m
    requires MonthOf(t) !in acc && MonthOf(t) != current
    ensures FirstIndex(MonthsOf(init), MonthOf(t)) == |init|
  {
    var b := FirstIndex(MonthsOf(init), MonthOf(t));
    if b < |init| {
      assert false;
    }
  }

  // ---------------------------------------------------------------------------
  // The anchor of one month
  // ---------------------------------------------------------------------------

  /** The largest category so far; `None` while no total has exceeded 0. */
  datatype Max = Max(category: Option<string>, amount: real)

  /** Entry `i` holds `max`, and every entry before it is strictly smaller. */
  predicate FirstLargest(tally: seq<Entry>, i: int, max: Max)
    requires 0 <= i < |tally|
  {
    && max.category == Some(tally[i].key)
    && tally[i].total == max.amount
    && forall j :: 0 <= j < i ==> tally[j].total < max.amount
  }

  /**
   * The `forEach` over the category totals keeping the first strictly largest
   * total, starting from `null` and 0.
   */
  function MaxCategory(tally: seq<Entry>): (r: Max)
    ensures r.amount >= 0.0
    ensures forall i :: 0 <= i < |tally| ==> tally[i].total <= r.amount
    ensures r.category.None? ==> r.amount == 0.0
    ensures r.category.Some? ==> r.amount > 0.0
    ensures r.category.Some? ==> exists i :: 0 <= i < |tally| && FirstLargest(tally, i, r)
  {
    if |tally| == 0 then Max(None, 0.0)
    else
      var init := tally[..|tally| - 1];
      var e := tally[|tally| - 1];
      var acc := MaxCategory(init);
      assert forall i :: 0 <= i < |init| ==> init[i] == tally[i];
      if e.total > acc.amount then
        assert FirstLargest(tally, |tally| - 1, Max(Some(e.key), e.total));
        Max(Some(e.key), e.total)
      else
        FirstLargestExtends(init, e, acc);
        assert init + [e] == tally;
        acc
  }

  /** Appending an entry that is not larger keeps the first largest entry. */
  lemma FirstLargestExtends(init: seq<Entry>, e: Entry, max: Max)
    requires max.category.Some? ==> exists i :: 0 <= i < |init| && FirstLargest(init, i, max)
    ensures max.category.Some? ==> exists i :: 0 <= i < |init + [e]| && FirstLargest(init + [e], i, max)
  {
    if max.category.Some? {
      var i :| 0 <= i < |init| && FirstLargest(init, i, max);
      assert FirstLargest(init + [e], i, max);
    }
  }

  /** The non-income records of month `m`. */
  function Spend(txs: seq<Transaction>, m: int): seq<Transaction>
  {
    Filter(InMonth(txs, m), NotIncome)
  }

  const MonthNames: seq<string> :=
    ["Jan", "Feb", "Mar", "Apr", "May", "Jun", "Jul", "Aug", "Sep", "Oct", "Nov", "Dec"]

  /** `format('MMM YYYY')` of month `m`. */
  function MonthLabel(m: int): string
  {
    MonthNames[m % 12] + " " + IntToString(m / 12)
  }

  function ConsequenceInsight(m: int, category: string, rate: real): string
  {
    "In " + MonthLabel(m) + ", high " + Insights.CategoryLabel(category)
      + " spending contributed to a savings rate drop to " + IntToString(Round(rate)) + "%."
  }

  /** The source's text, including its mis-encoded rupee sign. */
  function PositiveInsight(m: int, category: string, amount: real, rate: real): string
  {
    "In " + MonthLabel(m) + ", maintaining " + Insights.CategoryLabel(category)
      + " at \U{E2}\U{201A}\U{B9}" + IntToString(Round(amount)) + " enabled a "
      + IntToString(Round(rate)) + "% savings rate."
  }

  /**
   * The anchor month `m` yields: a consequence anchor at 90% of the largest
   * category when the savings rate is below 10, a positive anchor at 150% of
   * it when the rate is above 25, and none otherwise or when no category has
   * a positive total (or the largest is the empty, falsy, name).
   */
  function MonthAnchor(txs: seq<Transaction>, m: int): (r: Option<Anchor>)
    ensures r.Some? ==> r.value.period == m
    ensures r.Some? <==>
      && |InMonth(txs, m)| > 0
      && MaxCategory(CategoryTotals(Spend(txs, m))).category.Some?
      && MaxCategory(CategoryTotals(Spend(txs, m))).category.value != ""
      && (MonthRate(txs, m) < 10.0 || MonthRate(txs, m) > 25.0)
    ensures r.Some? ==>
      && (exists t :: t in Spend(txs, m) && t.category == r.value.category)
      && CategorySum(Spend(txs, m), r.value.category) > 0.0
      && (forall t :: t in Spend(txs, m) ==> CategorySum(Spend(txs, m), t.category) <= CategorySum(Spend(txs, m), r.value.category))
    ensures r.Some? && MonthRate(txs, m) < 10.0 ==>
      r.value.kind == Consequence && r.value.threshold == 0.9 * CategorySum(Spend(txs, m), r.value.category)
    ensures r.Some? && MonthRate(txs, m) > 25.0 ==>
      r.value.kind == Positive && r.value.threshold == 1.5 * CategorySum(Spend(txs, m), r.value.category)
  {
    var monthTx := InMonth(txs, m);
    if |monthTx| == 0 then None
    else
      var spend := Spend(txs, m);
      var tally := CategoryTotals(spend);
      var rate := MonthRate(txs, m);
      var max := MaxCategory(tally);
      if max.category.None? || max.category.value == "" then None
      else
        var c := max.category.value;
        MaxIsLargestCategory(spend, max);
        if rate < 10.0 then
          Some(Anchor(m, Consequence, c, max.amount * 0.9, ConsequenceInsight(m, c, rate)))
        else if rate > 25.0 then
          Some(Anchor(m, Positive, c, max.amount * 1.5, PositiveInsight(m, c, max.amount, rate)))
        else None
  }

  /**
   * The largest category found in the totals is a category of the records,
   * its amount is that category's sum, and no category sums to more.
   */
  lemma MaxIsLargestCategory(spend: seq<Transaction>, max: Max)
    requires max == MaxCategory(CategoryTotals(spend))
    requires max.category.Some?
    ensures exists t :: t in spend && t.category == max.category.value
    ensures max.amount == CategorySum(spend, max.category.value)
    ensures forall t :: t in spend ==> CategorySum(spend, t.category) <= max.amount
  {
    var tally := CategoryTotals(spend);
    CategoryTotalsCorrect(spend);
    var i :| 0 <= i < |tally| && FirstLargest(tally, i, max);
    LookupAt(tally, i);
    assert max.category.value in KeysOf(tally);
    forall t | t in spend
      ensures CategorySum(spend, t.category) <= max.amount
    {
      LookupBelowMax(tally, max, t.category);
    }
  }

  /** No key of the tally holds more than the maximum found in it. */
  lemma LookupBelowMax(tally: seq<Entry>, max: Max, c: string)
    requires DistinctKeys(tally)
    requires max == MaxCategory(tally)
    requires c in KeysOf(tally)
    ensures Lookup(tally, c) <= max.amount
  {
    var j :| 0 <= j < |tally| && KeysOf(tally)[j] == c;
    LookupAt(tally, j);
  }

  /** Every non-income record of the month counts as spending, income never does. */
  lemma SpendIsNonIncome(txs: seq<Transaction>, m: int, t: Transaction)
    ensures t in Spend(txs, m) <==> t in txs && MonthOf(t) == m && !IsIncome(t)
  {
  }

  // ---------------------------------------------------------------------------
  // Archiving
  // ---------------------------------------------------------------------------

  /** The anchor list after a pass, and whether the pass added anything (and so wrote the store). */
  datatype Archived = Archived(anchors: seq<Anchor>, updated: bool)

  /** The store write the pass performs: the whole new list, only when it changed. */
  function Write(a: Archived): Option<seq<Anchor>>
  {
    if a.updated then Some(a.anchors) else None
  }

  /** The anchor derived for a month describes that month. */
  ghost predicate DescribesMonth(anchorOf: int -> Option<Anchor>)
  {
    forall m :: anchorOf(m).Some? ==> anchorOf(m).value.period == m
  }

  /** Each month either already has an anchor or yields none. */
  predicate Settled(anchorOf: int -> Option<Anchor>, months: seq<int>, anchors: seq<Anchor>)
  {
    forall m :: m in months ==> HasPeriod(anchors, m) || anchorOf(m).None?
  }

  /** The `forEach` over `months`, appending the anchor of every month not yet present. */
  function ArchiveFrom(anchorOf: int -> Option<Anchor>, months: seq<int>, acc: seq<Anchor>, updated: bool): (r: Archived)
    ensures |acc| <= |r.anchors| && r.anchors[..|acc|] == acc
    ensures r.updated <==> updated || |r.anchors| > |acc|
    decreases |months|
  {
    if |months| == 0 then Archived(acc, updated)
    else
      var m := months[0];
      if HasPeriod(acc, m) then
        ArchiveFrom(anchorOf, months[1..], acc, updated)
      else
        match anchorOf(m)
        case None => ArchiveFrom(anchorOf, months[1..], acc, updated)
        case Some(a) =>
          var r := ArchiveFrom(anchorOf, months[1..], acc + [a], true);
          assert r.anchors[..|acc|] == (acc + [a])[..|acc|] by {
            assert r.anchors[..|acc|] == r.anchors[..|acc| + 1][..|acc|];
          }
          r
  }

  /** The step of `ArchiveFrom` at the first month. */
  lemma ArchiveFromStep(anchorOf: int -> Option<Anchor>, months: seq<int>, acc: seq<Anchor>, updated: bool)
    requires |months| > 0
    ensures HasPeriod(acc, months[0]) || anchorOf(months[0]).None? ==>
      ArchiveFrom(anchorOf, months, acc, updated) == ArchiveFrom(anchorOf, months[1..], acc, updated)
    ensures !HasPeriod(acc, months[0]) && anchorOf(months[0]).Some? ==>
      ArchiveFrom(anchorOf, months, acc, updated)
        == ArchiveFrom(anchorOf, months[1..], acc + [anchorOf(months[0]).value], true)
  {
  }

  /**
   * Every appended anchor is the anchor of one of the months, a month that
   * had no anchor before, and no month gets two.
   */
  lemma {:induction false} ArchiveFromAppends(anchorOf: int -> Option<Anchor>, months: seq<int>, acc: seq<Anchor>, updated: bool)
    requires DescribesMonth(anchorOf)
    requires forall i, j :: 0 <= i < j < |months| ==> months[i] != months[j]
    ensures forall i :: |acc| <= i < |ArchiveFrom(anchorOf, months, acc, updated).anchors| ==>
      && ArchiveFrom(anchorOf, months, acc, updated).anchors[i].period in months
      && !HasPeriod(acc, ArchiveFrom(anchorOf, months, acc, updated).anchors[i].period)
      && anchorOf(ArchiveFrom(anchorOf, months, acc, updated).anchors[i].period)
           == Some(ArchiveFrom(anchorOf, months, acc, updated).anchors[i])
    ensures forall i, j :: |acc| <= i < j < |ArchiveFrom(anchorOf, months, acc, updated).anchors| ==>
      ArchiveFrom(anchorOf, months, acc, updated).anchors[i].period
        != ArchiveFrom(anchorOf, months, acc, updated).anchors[j].period
    decreases |months|
  {
    if |months| > 0 {
      var m := months[0];
      var tail := months[1..];
      assert forall x :: x in tail ==> x in months && x != m;
      assert forall i, j :: 0 <= i < j < |tail| ==> tail[i] != tail[j];
      ArchiveFromStep(anchorOf, months, acc, updated);
      if !HasPeriod(acc, m) && anchorOf(m).Some? {
        var a := anchorOf(m).value;
        ArchiveFromAppends(anchorOf, tail, acc + [a], true);
        var r := ArchiveFrom(anchorOf, months, acc, updated);
        assert r == ArchiveFrom(anchorOf, tail, acc + [a], true);
        assert r.anchors[..|acc| + 1] == acc + [a];
        assert r.anchors[|acc|] == a;
        forall x | |acc| + 1 <= x < |r.anchors|
          ensures r.anchors[x].period in tail && !HasPeriod(acc, r.anchors[x].period)
        {
          assert !HasPeriod(acc + [a], r.anchors[x].period);
        }
        forall x | |acc| <= x < |r.anchors|
          ensures && r.anchors[x].period in months
                  && !HasPeriod(acc, r.anchors[x].period)
                  && anchorOf(r.anchors[x].period) == Some(r.anchors[x])
        {
        }
        forall x, y | |acc| <= x < y < |r.anchors|
          ensures r.anchors[x].period != r.anchors[y].period
        {
          if x == |acc| {
            assert r.anchors[y].period in tail;
          }
        }
      } else {
        ArchiveFromAppends(anchorOf, tail, acc, updated);
      }
    }
  }

  /** After the pass, every month has an anchor or yields none. */
  lemma {:induction false} ArchiveFromSettles(anchorOf: int -> Option<Anchor>, months: seq<int>, acc: seq<Anchor>, updated: bool)
    requires DescribesMonth(anchorOf)
    ensures Settled(anchorOf, months, ArchiveFrom(anchorOf, months, acc, updated).anchors)
    decreases |months|
  {
    if |months| > 0 {
      var m := months[0];
      var tail := months[1..];
      var r := ArchiveFrom(anchorOf, months, acc, updated);
      ArchiveFromStep(anchorOf, months, acc, updated);
      if !HasPeriod(acc, m) && anchorOf(m).Some? {
        var a := anchorOf(m).value;
        ArchiveFromSettles(anchorOf, tail, acc + [a], true);
        assert r.anchors[..|acc| + 1] == acc + [a];
        assert r.anchors[|acc|] == a;
      } else {
        ArchiveFromSettles(anchorOf, tail, acc, updated);
        if HasPeriod(acc, m) {
          var b :| b in acc && b.period == m;
          assert b == r.anchors[..|acc|][IndexOf(acc, b)];
        }
      }
    }
  }

  /** The position of `a` in `s`. */
  function IndexOf(s: seq<Anchor>, a: Anchor): (i: nat)
    requires a in s
    ensures i < |s| && s[i] == a
  {
    if s[0] == a then 0 else 1 + IndexOf(s[1..], a)
  }

  /** A pass over settled months adds nothing and writes nothing new. */
  lemma {:induction false} ArchiveFromSettled(anchorOf: int -> Option<Anchor>, months: seq<int>, acc: seq<Anchor>, updated: bool)
    requires Settled(anchorOf, months, acc)
    ensures ArchiveFrom(anchorOf, months, acc, updated) == Archived(acc, updated)
    decreases |months|
  {
    if |months| > 0 {
      ArchiveFromStep(anchorOf, months, acc, updated);
      assert months[0] in months;
      ArchiveFromSettled(anchorOf, months[1..], acc, updated);
    }
  }

  /** Extending a list with anchors for months it lacks, each once, keeps periods unique. */
  lemma AppendKeepsUnique(stored: seq<Anchor>, anchors: seq<Anchor>)
    requires UniquePeriods(stored)
    requires |stored| <= |anchors| && anchors[..|stored|] == stored
    requires forall i :: |stored| <= i < |anchors| ==> !HasPeriod(stored, anchors[i].period)
    requires forall i, j :: |stored| <= i < j < |anchors| ==> anchors[i].period != anchors[j].period
    ensures UniquePeriods(anchors)
  {
    forall i, j | 0 <= i < j < |anchors|
      ensures anchors[i].period != anchors[j].period
    {
      if j < |stored| {
        assert anchors[i] == stored[i] && anchors[j] == stored[j];
      } else if i < |stored| {
        assert anchors[i] == stored[i];
        assert stored[i] in stored;
      }
    }
  }

  /**
   * An anchor the pass may add: it describes a closed month that has records
   * and no stored anchor, and it is the anchor that month yields.
   */
  predicate NewAnchor(txs: seq<Transaction>, stored: seq<Anchor>, today: int, a: Anchor)
  {
    && a.period != Calendar.MonthOf(today)
    && (exists t :: t in txs && MonthOf(t) == a.period)
    && !HasPeriod(stored, a.period)
    && MonthAnchor(txs, a.period) == Some(a)
  }

  /**
   * `archivePreviousPeriods`: one pass over the months with records except
   * the current one, appending the anchor of every month that has none yet.
   * The stored list is kept as a prefix, each appended anchor is the anchor
   * of a closed month that had none, every closed month ends with an anchor
   * or yields none, and the store is written exactly when something was
   * appended.
   */
  function ArchivePreviousPeriods(txs: seq<Transaction>, stored: seq<Anchor>, today: int): (r: Archived)
    ensures |stored| <= |r.anchors| && r.anchors[..|stored|] == stored
    ensures r.updated <==> |r.anchors| > |stored|
    ensures UniquePeriods(stored) ==> UniquePeriods(r.anchors)
  {
    AnchorsDescribeMonths(txs);
    ArchiveKeepsUnique(AnchorsOf(txs), ClosedMonths(txs, Calendar.MonthOf(today)), stored);
    ArchiveFrom(AnchorsOf(txs), ClosedMonths(txs, Calendar.MonthOf(today)), stored, false)
  }

  lemma ArchiveKeepsUnique(anchorOf: int -> Option<Anchor>, months: seq<int>, stored: seq<Anchor>)
    requires DescribesMonth(anchorOf)
    requires forall i, j :: 0 <= i < j < |months| ==> months[i] != months[j]
    ensures UniquePeriods(stored) ==> UniquePeriods(ArchiveFrom(anchorOf, months, stored, false).anchors)
  {
    var r := ArchiveFrom(anchorOf, months, stored, false);
    ArchiveFromAppends(anchorOf, months, stored, false);
    if UniquePeriods(stored) {
      AppendKeepsUnique(stored, r.anchors);
    }
  }

  /** The anchor each month of `txs` would archive. */
  function AnchorsOf(txs: seq<Transaction>): (anchorOf: int -> Option<Anchor>)
    ensures forall m :: anchorOf(m) == MonthAnchor(txs, m)
  {
    (m: int) => MonthAnchor(txs, m)
  }

  lemma AnchorsDescribeMonths(txs: seq<Transaction>)
    ensures DescribesMonth(AnchorsOf(txs))
  {
    forall m | AnchorsOf(txs)(m).Some?
      ensures AnchorsOf(txs)(m).value.period == m
    {
      assert AnchorsOf(txs)(m) == MonthAnchor(txs, m);
    }
  }

  /**
   * Each anchor the pass appends describes a closed month that has records
   * and no stored anchor, and is the anchor that month yields.
   */
  lemma ArchiveAddsOnlyNewAnchors(txs: seq<Transaction>, stored: seq<Anchor>, today: int)
    ensures var r := ArchivePreviousPeriods(txs, stored, today);
      forall i :: |stored| <= i < |r.anchors| ==> NewAnchor(txs, stored, today, r.anchors[i])
  {
    var anchorOf := AnchorsOf(txs);
    var months := ClosedMonths(txs, Calendar.MonthOf(today));
    var r := ArchiveFrom(anchorOf, months, stored, false);
    AnchorsDescribeMonths(txs);
    ArchiveFromAppends(anchorOf, months, stored, false);
    forall i | |stored| <= i < |r.anchors|
      ensures NewAnchor(txs, stored, today, r.anchors[i])
    {
      assert r.anchors[i].period in months;
    }
  }

  /** After the pass, every closed month with records has an anchor or yields none. */
  lemma ArchiveCoversClosedMonths(txs: seq<Transaction>, stored: seq<Anchor>, today: int)
    ensures var r := ArchivePreviousPeriods(txs, stored, today);
      forall t :: t in txs && MonthOf(t) != Calendar.MonthOf(today) ==>
        HasPeriod(r.anchors, MonthOf(t)) || MonthAnchor(txs, MonthOf(t)).None?
  {
    var anchorOf := AnchorsOf(txs);
    var months := ClosedMonths(txs, Calendar.MonthOf(today));
    var r := ArchiveFrom(anchorOf, months, stored, false);
    AnchorsDescribeMonths(txs);
    ArchiveFromSettles(anchorOf, months, stored, false);
    forall t | t in txs && MonthOf(t) != Calendar.MonthOf(today)
      ensures HasPeriod(r.anchors, MonthOf(t)) || MonthAnchor(txs, MonthOf(t)).None?
    {
      assert MonthOf(t) in months;
    }
  }

  /**
   * Archiving again over its own output adds nothing and does not write the
   * store.
   */
  lemma ArchiveIdempotent(txs: seq<Transaction>, stored: seq<Anchor>, today: int)
    ensures var r := ArchivePreviousPeriods(txs, stored, today);
      ArchivePreviousPeriods(txs, r.anchors, today) == Archived(r.anchors, false)
      && Write(ArchivePreviousPeriods(txs, r.anchors, today)).None?
  {
    var r := ArchivePreviousPeriods(txs, stored, today);
    var anchorOf := AnchorsOf(txs);
    var months := ClosedMonths(txs, Calendar.MonthOf(today));
    ArchiveCoversClosedMonths(txs, stored, today);
    forall m | m in months
      ensures HasPeriod(r.anchors, m) || anchorOf(m).None?
    {
      var t :| t in txs && MonthOf(t) == m;
    }
    ArchiveFromSettled(anchorOf, months, r.anchors, false);
  }

  // ---------------------------------------------------------------------------
  // Matching
  // ---------------------------------------------------------------------------

  /** This month's expense total of the anchor's category reaches its threshold. */
  predicate Fires(current: seq<Transaction>, a: Anchor)
  {
    CategorySum(Filter(current, IsExpense), a.category) >= a.threshold
  }

  /** Anchor `i` fires and no later anchor does. */
  predicate LastFiring(current: seq<Transaction>, anchors: seq<Anchor>, i: int)
    requires 0 <= i < |anchors|
  {
    Fires(current, anchors[i]) && forall j :: i < j < |anchors| ==> !Fires(current, anchors[j])
  }

  /** The reverse scan: the last anchor whose category total reaches its threshold. */
  function LastMatch(anchors: seq<Anchor>, tally: seq<Entry>): (r: Option<nat>)
    ensures r.Some? ==> r.value < |anchors| && Lookup(tally, anchors[r.value].category) >= anchors[r.value].threshold
    ensures r.Some? ==> forall j :: r.value < j < |anchors| ==> Lookup(tally, anchors[j].category) < anchors[j].threshold
    ensures r.None? ==> forall j :: 0 <= j < |anchors| ==> Lookup(tally, anchors[j].category) < anchors[j].threshold
  {
    if |anchors| == 0 then None
    else
      var n := |anchors| - 1;
      if Lookup(tally, anchors[n].category) >= anchors[n].threshold then Some(n)
      else
        var r := LastMatch(anchors[..n], tally);
        assert forall j :: 0 <= j < n ==> anchors[..n][j] == anchors[j];
        r
  }

  /**
   * `findActiveMemoryAnchor`: the insight of the most recently appended
   * anchor that fires against the current expenses, or none when the list
   * is empty or no anchor fires.
   */
  function FindActiveMemoryAnchor(current: seq<Transaction>, anchors: seq<Anchor>): (r: Option<string>)
    ensures r.None? <==> forall i :: 0 <= i < |anchors| ==> !Fires(current, anchors[i])
    ensures r.Some? ==> exists i :: 0 <= i < |anchors| && LastFiring(current, anchors, i) && r.value == anchors[i].insight
  {
    if |anchors| == 0 then None
    else
      var expenses := Filter(current, IsExpense);
      var tally := CategoryTotals(expenses);
      CategoryTotalsCorrect(expenses);
      match LastMatch(anchors, tally)
      case None => None
      case Some(i) => Some(anchors[i].insight)
  }

  function FoodExpense(amount: real): Transaction
  {
    Transaction("t", "Groceries", amount, Expense, "Food", 0, None, NoStatus, None)
  }

  function OnDay(d: int, id: string, amount: real, txType: TxType, category: string): Transaction
  {
    Transaction(id, id, amount, txType, category, d, None, NoStatus, None)
  }

  /** A month of income 1000 and expenses Food 500 and Rent 450, all on day `d`. */
  function FoodMonth(d: int): seq<Transaction>
  {
    [OnDay(d, "i", 1000.0, Income, "Salary"), OnDay(d, "f", 500.0, Expense, "Food"), OnDay(d, "r", 450.0, Expense, "Rent")]
  }

  lemma FoodMonthSpend(d: int)
    ensures InMonth(FoodMonth(d), Calendar.MonthOf(d)) == FoodMonth(d)
    ensures Spend(FoodMonth(d), Calendar.MonthOf(d)) == FoodMonth(d)[1..]
  {
    var txs := FoodMonth(d);
    var food, rent := txs[1], txs[2];
    var m := Calendar.MonthOf(d);
    assert OfMonth(m)(txs[0]) && OfMonth(m)(food) && OfMonth(m)(rent);
    assert Filter([rent], OfMonth(m)) == [rent];
    assert Filter([food, rent], OfMonth(m)) == [food, rent];
    assert InMonth(txs, m) == txs;
    assert [rent][1..] == [] && [food, rent][1..] == [rent] && txs[1..] == [food, rent];
    assert Filter([rent], NotIncome) == [rent];
    assert Filter([food, rent], NotIncome) == [food, rent];
  }

  lemma FoodMonthTotals(d: int)
    ensures CategoryTotals(FoodMonth(d)[1..]) == [Entry("Food", 500.0), Entry("Rent", 450.0)]
  {
    var food, rent := OnDay(d, "f", 500.0, Expense, "Food"), OnDay(d, "r", 450.0, Expense, "Rent");
    assert FoodMonth(d)[1..] == [food, rent];
    assert [food, rent][..1] == [food] && [food][..0] == [];
    assert TotalsBy([food], CategoryOf) == Bump(TotalsBy([], CategoryOf), "Food", 500.0);
    assert TotalsBy([food, rent], CategoryOf) == Bump([Entry("Food", 500.0)], "Rent", 450.0);
  }

  lemma FoodMonthSplit(d: int)
    ensures Split(FoodMonth(d)) == Totals(1000.0, 950.0)
  {
    var txs := FoodMonth(d);
    var inc, food := OnDay(d, "i", 1000.0, Income, "Salary"), OnDay(d, "f", 500.0, Expense, "Food");
    assert txs[..2] == [inc, food] && [inc, food][..1] == [inc] && [inc][..0] == [];
    assert Split([inc]) == Totals(1000.0, 0.0);
    assert Split([inc, food]) == Totals(1000.0, 500.0);
  }

  lemma FoodMonthRate(d: int)
    ensures MonthRate(FoodMonth(d), Calendar.MonthOf(d)) == 5.0
  {
    FoodMonthSpend(d);
    FoodMonthSplit(d);
    assert Totals(1000.0, 950.0).Rate() == 5.0;
  }

  /** A month with records, a named largest category and a rate below 10 yields a consequence anchor on it. */
  lemma ConsequenceAnchor(txs: seq<Transaction>, m: int, c: string, amount: real)
    requires |InMonth(txs, m)| > 0
    requires MaxCategory(CategoryTotals(Spend(txs, m))) == Max(Some(c), amount) && c != ""
    requires MonthRate(txs, m) < 10.0
    ensures MonthAnchor(txs, m).Some?
    ensures MonthAnchor(txs, m).value.kind == Consequence
    ensures MonthAnchor(txs, m).value.category == c && MonthAnchor(txs, m).value.threshold == amount * 0.9
  {
  }

  /** The month above saves 5%, so its anchor is a consequence on Food at 90% of 500. */
  lemma FoodMonthAnchor(d: int)
    ensures var a := MonthAnchor(FoodMonth(d), Calendar.MonthOf(d));
      a.Some? && a.value.kind == Consequence && a.value.category == "Food" && a.value.threshold == 450.0
  {
    var m := Calendar.MonthOf(d);
    assert |InMonth(FoodMonth(d), m)| > 0 by {
      FoodMonthSpend(d);
    }
    assert MaxCategory(CategoryTotals(Spend(FoodMonth(d), m))) == Max(Some("Food"), 500.0) by {
      FoodMonthSpend(d);
      FoodMonthTotals(d);
      assert MaxCategory([Entry("Food", 500.0), Entry("Rent", 450.0)]) == Max(Some("Food"), 500.0);
    }
    assert MonthRate(FoodMonth(d), m) < 10.0 by {
      FoodMonthRate(d);
    }
    ConsequenceAnchor(FoodMonth(d), m, "Food", 500.0);
  }

  /** A Food anchor at 450 fires at 460 and not at 440. */
  lemma FoodThreshold(a: Anchor)
    requires a.category == "Food" && a.threshold == 450.0
    ensures FindActiveMemoryAnchor([FoodExpense(460.0)], [a]) == Some(a.insight)
    ensures FindActiveMemoryAnchor([FoodExpense(440.0)], [a]) == None
  {
    assert Filter([FoodExpense(460.0)], IsExpense) == [FoodExpense(460.0)];
    assert Filter([FoodExpense(440.0)], IsExpense) == [FoodExpense(440.0)];
    assert Fires([FoodExpense(460.0)], a);
    assert !Fires([FoodExpense(440.0)], a);
  }

  /**
   * The anchor archived for the month above fires when this month's Food
   * spending is 460 and not when it is 440.
   */
  lemma FoodAnchorExample(d: int)
    ensures var a := MonthAnchor(FoodMonth(d), Calendar.MonthOf(d));
      && a.Some? && a.value.kind == Consequence && a.value.category == "Food" && a.value.threshold == 450.0
      && FindActiveMemoryAnchor([FoodExpense(460.0)], [a.value]) == Some(a.value.insight)
      && FindActiveMemoryAnchor([FoodExpense(440.0)], [a.value]) == None
  {
    FoodMonthAnchor(d);
    FoodThreshold(MonthAnchor(FoodMonth(d), Calendar.MonthOf(d)).value);
  }

  /** The newest firing anchor wins over older ones. */
  lemma NewestAnchorWins(current: seq<Transaction>, older: Anchor, newer: Anchor)
    requires Fires(current, older) && Fires(current, newer)
    ensures FindActiveMemoryAnchor(current, [older, newer]) == Some(newer.insight)
  {
  }
}
