/**
 * The header's month selector: the trailing twelve months counted back from
 * today together with every month that holds a record, without repeats and
 * newest first. Months are month indexes (see module Calendar), which stand
 * for their `MMM YYYY` labels one to one.
 */
module Header {
  import opened Ledger
  import Calendar

  predicate StrictlyDescending(s: seq<int>)
  {
    forall i, j :: 0 <= i < j < |s| ==> s[i] > s[j]
  }

  /** Inserts `m` into a strictly descending list, unless it is already there. */
  function InsertMonth(m: int, s: seq<int>): (r: seq<int>)
    requires StrictlyDescending(s)
    ensures StrictlyDescending(r)
    ensures forall x :: x in r <==> x == m || x in s
  {
    if |s| == 0 then [m]
    else if m > s[0] then [m] + s
    else if m == s[0] then s
    else
      var rest := InsertMonth(m, s[1..]);
      BelowHead(s);
      ConsDescending(s[0], rest);
      [s[0]] + rest
  }

  lemma BelowHead(s: seq<int>)
    requires StrictlyDescending(s) && |s| > 0
    ensures forall x :: x in s[1..] ==> x < s[0]
  {
  }

  lemma ConsDescending(h: int, s: seq<int>)
    requires StrictlyDescending(s)
    requires forall x :: x in s ==> x < h
    ensures StrictlyDescending([h] + s)
  {
    var r := [h] + s;
    forall i, j | 0 <= i < j < |r|
      ensures r[i] > r[j]
    {
      assert r[j] == s[j - 1];
      if i > 0 {
        assert r[i] == s[i - 1];
      } else {
        assert s[j - 1] in s;
      }
    }
  }

  /** `Array.from(new Set(months)).sort(newest first)`. */
  function DistinctNewestFirst(months: seq<int>): (r: seq<int>)
    ensures StrictlyDescending(r)
    ensures forall x :: x in r <==> x in months
  {
    if |months| == 0 then []
    else InsertMonth(months[|months| - 1], DistinctNewestFirst(months[..|months| - 1]))
  }

  /** The current month and the eleven before it, newest first. */
  function TrailingMonths(current: int): (r: seq<int>)
    ensures |r| == 12
    ensures forall i :: 0 <= i < 12 ==> r[i] == current - i
  {
    seq(12, i => current - i)
  }

  /** The month of every record, in record order. */
  function RecordMonths(txs: seq<Transaction>): (r: seq<int>)
    ensures |r| == |txs|
    ensures forall i :: 0 <= i < |txs| ==> r[i] == Ledger.MonthOf(txs[i])
  {
    seq(|txs|, i requires 0 <= i < |txs| => Ledger.MonthOf(txs[i]))
  }

  /** `allMonths` for the day `today`. */
  function AllMonths(txs: seq<Transaction>, today: int): (r: seq<int>)
    ensures StrictlyDescending(r)
    ensures forall i, j :: 0 <= i < |r| && 0 <= j < |r| && r[i] == r[j] ==> i == j
    ensures forall m :: m in r <==>
      (Calendar.MonthOf(today) - 12 < m <= Calendar.MonthOf(today)) || (exists t :: t in txs && Ledger.MonthOf(t) == m)
  {
    var current := Calendar.MonthOf(today);
    var all := TrailingMonths(current) + RecordMonths(txs);
    var r := DistinctNewestFirst(all);
    AllMonthsMembers(txs, current);
    r
  }

  lemma AllMonthsMembers(txs: seq<Transaction>, current: int)
    ensures forall m :: m in TrailingMonths(current) + RecordMonths(txs) <==>
      (current - 12 < m <= current) || (exists t :: t in txs && Ledger.MonthOf(t) == m)
  {
    var tm := TrailingMonths(current);
    var rm := RecordMonths(txs);
    forall m
      ensures m in tm + rm <==> (current - 12 < m <= current) || (exists t :: t in txs && Ledger.MonthOf(t) == m)
    {
      if current - 12 < m <= current {
        assert tm[current - m] == m;
      }
      if exists t :: t in txs && Ledger.MonthOf(t) == m {
        var t :| t in txs && Ledger.MonthOf(t) == m;
        var i :| 0 <= i < |txs| && txs[i] == t;
        assert rm[i] == m;
      }
      if m in rm {
        var i :| 0 <= i < |rm| && rm[i] == m;
        assert txs[i] in txs;
      }
    }
  }

  /** The selector always offers exactly twelve months when no record lies outside them. */
  lemma OnlyRecentRecords(txs: seq<Transaction>, today: int)
    requires forall t :: t in txs ==> Calendar.MonthOf(today) - 12 < Ledger.MonthOf(t) <= Calendar.MonthOf(today)
    ensures |AllMonths(txs, today)| == 12
    ensures AllMonths(txs, today) == TrailingMonths(Calendar.MonthOf(today))
  {
    var current := Calendar.MonthOf(today);
    var r := AllMonths(txs, today);
    var tm := TrailingMonths(current);
    forall m
      ensures m in r <==> m in tm
    {
      if current - 12 < m <= current {
        assert tm[current - m] == m;
      }
    }
    DescendingEqual(r, tm);
  }

  /** Two strictly descending lists with the same members are equal. */
  lemma {:induction false} DescendingEqual(a: seq<int>, b: seq<int>)
    requires StrictlyDescending(a) && StrictlyDescending(b)
    requires forall x :: x in a <==> x in b
    ensures a == b
  {
    if |a| > 0 {
      assert a[0] in a;
      assert |b| > 0;
    }
    if |b| > 0 {
      assert b[0] in b;
      assert |a| > 0;
    }
    if |a| > 0 {
      assert b[0] in a && a[0] in b;
      forall x
        ensures x in a[1..] <==> x in b[1..]
      {
        if x in a[1..] {
          assert x < a[0] && x in b;
          var j :| 0 <= j < |b| && b[j] == x;
          assert j != 0;
          assert b[j] == b[1..][j - 1];
        }
        if x in b[1..] {
          assert x < b[0] && x in a;
          var j :| 0 <= j < |a| && a[j] == x;
          assert j != 0;
          assert a[j] == a[1..][j - 1];
        }
      }
      DescendingEqual(a[1..], b[1..]);
      assert a == [a[0]] + a[1..] && b == [b[0]] + b[1..];
    }
  }
}
