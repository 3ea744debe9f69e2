/**
 * The category donut chart's data: the records of one type bucketed by
 * capitalised category, ordered by value, and cut down to the five largest
 * buckets plus an "Others" bucket for the rest.
 */
module Donut {
  import opened Text
  import opened Ledger

  /** `s.charAt(0).toUpperCase() + s.slice(1)`. */
  function Capitalize(s: string): (r: string)
    ensures |r| == |s|
    ensures |s| > 0 ==> r[0] == UpperChar(s[0]) && r[1..] == s[1..]
  {
    if |s| == 0 then "" else [UpperChar(s[0])] + s[1..]
  }

  /** Capitalising twice is capitalising once. */
  lemma CapitalizeIdempotent(s: string)
    ensures Capitalize(Capitalize(s)) == Capitalize(s)
  {
  }

  /**
   * Capitalising changes only the case: two categories land in the same
   * bucket only if they agree ignoring the case of ASCII letters.
   */
  lemma CapitalizeKeepsLower(a: string, b: string)
    ensures Lower(Capitalize(a)) == Lower(a)
    ensures Capitalize(a) == Capitalize(b) ==> Lower(a) == Lower(b)
  {
    assert forall s: string, i :: 0 <= i < |s| ==> Lower(Capitalize(s))[i] == Lower(s)[i];
  }

  /** `food` and `Food` share a bucket. */
  lemma CapitalizeMerges(rest: string)
    ensures Capitalize("f" + rest) == Capitalize("F" + rest)
  {
  }

  /** The bucket name of a record. */
  function BucketOf(t: Transaction): string
  {
    Capitalize(t.category)
  }

  /** The chart shows one type at a time. */
  function OfType(ty: TxType): Transaction -> bool
  {
    (t: Transaction) => t.txType == ty
  }

  /** A chart entry. */
  datatype Slice = Slice(name: string, value: real, percentage: real)

  function SumEntries(tally: seq<Entry>): real
  {
    if |tally| == 0 then 0.0 else tally[0].total + SumEntries(tally[1..])
  }

  /** The entries sum to the same total after a bump by `amount`. */
  lemma {:induction false} BumpSum(tally: seq<Entry>, key: string, amount: real)
    ensures SumEntries(Bump(tally, key, amount)) == SumEntries(tally) + amount
  {
    if |tally| > 0 && tally[0].key != key {
      BumpSum(tally[1..], key, amount);
    }
  }

  /** The bucket totals add up to the sum of all amounts. */
  lemma {:induction false} TotalsBySum(txs: seq<Transaction>, key: Transaction -> string)
    ensures SumEntries(TotalsBy(txs, key)) == Sum(txs)
  {
    if |txs| > 0 {
      var init := txs[..|txs| - 1];
      var last := txs[|txs| - 1];
      assert txs == init + [last];
      TotalsBySum(init, key);
      BumpSum(TotalsBy(init, key), key(last), last.amount);
      SumConcat(init, [last]);
    }
  }

  predicate SortedByValueDesc(s: seq<Entry>)
  {
    forall i, j :: 0 <= i < j < |s| ==> s[i].total >= s[j].total
  }

  /** Inserts `e` before the first entry with a smaller value, keeping ties in input order. */
  function InsertByValue(e: Entry, s: seq<Entry>): (r: seq<Entry>)
    requires SortedByValueDesc(s)
    ensures |r| == |s| + 1
    ensures r[0] == e || (|s| > 0 && r[0] == s[0])
    ensures SortedByValueDesc(r)
  {
    if |s| == 0 then [e]
    else if e.total >= s[0].total then
      ConsByValue(e, s);
      [e] + s
    else
      var rest := InsertByValue(e, s[1..]);
      assert s == [s[0]] + s[1..];
      ConsByValue(s[0], rest);
      [s[0]] + rest
  }

  /** Putting an entry no smaller than the head in front keeps the order. */
  lemma ConsByValue(h: Entry, r: seq<Entry>)
    requires SortedByValueDesc(r)
    requires |r| > 0 ==> h.total >= r[0].total
    ensures SortedByValueDesc([h] + r)
  {
  }

  /** Inserting adds exactly the one entry, and its value to the sum. */
  lemma {:induction false} InsertByValueAdds(e: Entry, s: seq<Entry>)
    requires SortedByValueDesc(s)
    ensures multiset(InsertByValue(e, s)) == multiset(s) + multiset{e}
    ensures SumEntries(InsertByValue(e, s)) == e.total + SumEntries(s)
  {
    if |s| > 0 {
      assert s == [s[0]] + s[1..];
      ConsAdds(s[0], s[1..]);
      if e.total >= s[0].total {
        ConsAdds(e, s);
      } else {
        var rest := InsertByValue(e, s[1..]);
        assert InsertByValue(e, s) == [s[0]] + rest;
        InsertByValueAdds(e, s[1..]);
        ConsAdds(s[0], rest);
      }
    }
  }

  /** Putting an entry in front adds it to the contents and its value to the sum. */
  lemma ConsAdds(h: Entry, r: seq<Entry>)
    ensures multiset([h] + r) == multiset{h} + multiset(r)
    ensures SumEntries([h] + r) == h.total + SumEntries(r)
  {
    assert ([h] + r)[1..] == r;
  }

  /** `.sort((a, b) => b.value - a.value)`: a stable sort, largest first. */
  function SortByValueDesc(s: seq<Entry>): (r: seq<Entry>)
    ensures SortedByValueDesc(r)
    ensures multiset(r) == multiset(s)
    ensures SumEntries(r) == SumEntries(s)
  {
    if |s| == 0 then []
    else
      assert s == [s[0]] + s[1..];
      InsertByValueAdds(s[0], SortByValueDesc(s[1..]));
      InsertByValue(s[0], SortByValueDesc(s[1..]))
  }

  function Percentage(value: real, total: real): real
  {
    if total > 0.0 then value / total * 100.0 else 0.0
  }

  function ToSlices(data: seq<Entry>, total: real): (r: seq<Slice>)
    ensures |r| == |data|
    ensures forall i :: 0 <= i < |data| ==>
      r[i] == Slice(data[i].key, data[i].total, Percentage(data[i].total, total))
  {
    if |data| == 0 then [] else [Slice(data[0].key, data[0].total, Percentage(data[0].total, total))] + ToSlices(data[1..], total)
  }

  function SumSlices(s: seq<Slice>): real
  {
    if |s| == 0 then 0.0 else s[0].value + SumSlices(s[1..])
  }

  lemma {:induction false} SumSlicesOf(data: seq<Entry>, total: real)
    ensures SumSlices(ToSlices(data, total)) == SumEntries(data)
  {
    if |data| > 0 {
      SumSlicesOf(data[1..], total);
      assert ToSlices(data, total)[1..] == ToSlices(data[1..], total);
    }
  }

  lemma {:induction false} SumEntriesConcat(a: seq<Entry>, b: seq<Entry>)
    ensures SumEntries(a + b) == SumEntries(a) + SumEntries(b)
  {
    if |a| > 0 {
      assert (a + b)[1..] == a[1..] + b;
      SumEntriesConcat(a[1..], b);
    } else {
      assert a + b == b;
    }
  }

  lemma {:induction false} SumSlicesConcat(a: seq<Slice>, b: seq<Slice>)
    ensures SumSlices(a + b) == SumSlices(a) + SumSlices(b)
  {
    if |a| > 0 {
      assert (a + b)[1..] == a[1..] + b;
      SumSlicesConcat(a[1..], b);
    } else {
      assert a + b == b;
    }
  }

  /** The sorted buckets of the records of type `ty`. */
  function Buckets(txs: seq<Transaction>, ty: TxType): seq<Entry>
  {
    SortByValueDesc(TotalsBy(Filter(txs, OfType(ty)), BucketOf))
  }

  datatype Chart = Chart(chartData: seq<Slice>, totalAmount: real)

  /**
   * Every bucket when there are at most five, else the five largest plus an
   * `Others` slice holding the sum of the rest when that sum is positive.
   */
  function TopFive(data: seq<Entry>, total: real): (r: seq<Slice>)
    ensures |r| <= 6
    ensures |data| <= 5 ==> r == ToSlices(data, total)
    ensures |data| > 5 ==>
      && 5 <= |r|
      && r[..5] == ToSlices(data[..5], total)
      && (|r| == 6 <==> SumEntries(data[5..]) > 0.0)
      && (|r| == 6 ==> r[5].name == "Others" && r[5].value == SumEntries(data[5..]))
      && (|r| == 6 ==> r[5].percentage == if total != 0.0 then SumEntries(data[5..]) / total * 100.0 else 0.0)
  {
    if |data| > 5 then
      var top5 := ToSlices(data[..5], total);
      var otherValue := SumEntries(data[5..]);
      if otherValue > 0.0 then
        var others := Slice("Others", otherValue, if total != 0.0 then otherValue / total * 100.0 else 0.0);
        assert (top5 + [others])[..5] == top5;
        top5 + [others]
      else top5
    else ToSlices(data, total)
  }

  /** When the tail beyond five is not negative, the slices add up to all the entries. */
  lemma TopFiveAddsUp(data: seq<Entry>, total: real)
    requires |data| > 5 ==> SumEntries(data[5..]) >= 0.0
    ensures SumSlices(TopFive(data, total)) == SumEntries(data)
  {
    if |data| > 5 {
      var top5 := ToSlices(data[..5], total);
      var otherValue := SumEntries(data[5..]);
      assert data == data[..5] + data[5..];
      SumEntriesConcat(data[..5], data[5..]);
      SumSlicesOf(data[..5], total);
      if otherValue > 0.0 {
        var others := Slice("Others", otherValue, if total != 0.0 then otherValue / total * 100.0 else 0.0);
        SumSlicesConcat(top5, [others]);
      }
    } else {
      SumSlicesOf(data, total);
    }
  }

  /** The `chartData` / `totalAmount` memo for the records of type `ty`. */
  function ChartOf(txs: seq<Transaction>, ty: TxType): (r: Chart)
    ensures r.totalAmount == Sum(Filter(txs, OfType(ty)))
    ensures SumEntries(Buckets(txs, ty)) == r.totalAmount
    ensures r.chartData == TopFive(Buckets(txs, ty), r.totalAmount)
    ensures |r.chartData| <= 6
  {
    var filtered := Filter(txs, OfType(ty));
    TotalsBySum(filtered, BucketOf);
    Chart(TopFive(Buckets(txs, ty), Sum(filtered)), Sum(filtered))
  }

  /** Each bucket is named after a capitalised category of the type and holds that bucket's sum. */
  lemma BucketsCorrect(txs: seq<Transaction>, ty: TxType)
    ensures DistinctKeys(Buckets(txs, ty))
    ensures SortedByValueDesc(Buckets(txs, ty))
    ensures forall e :: e in Buckets(txs, ty) ==>
      (exists t :: t in txs && t.txType == ty && BucketOf(t) == e.key)
      && e.total == KeySum(Filter(txs, OfType(ty)), BucketOf, e.key)
    ensures forall t :: t in txs && t.txType == ty ==> exists e :: e in Buckets(txs, ty) && e.key == BucketOf(t)
  {
    var tally := TotalsBy(Filter(txs, OfType(ty)), BucketOf);
    var data := Buckets(txs, ty);
    TotalsByCorrect(Filter(txs, OfType(ty)), BucketOf);
    SameEntries(tally, data);
    TallyEntries(txs, ty);
    TallyCovers(txs, ty);
    DistinctAfterSort(tally, data);
  }

  /** Sequences holding the same multiset hold the same elements. */
  lemma SameEntries(a: seq<Entry>, b: seq<Entry>)
    requires multiset(a) == multiset(b)
    ensures forall e :: e in a <==> e in b
  {
    forall e ensures e in a <==> e in b {
      assert e in a <==> e in multiset(a);
      assert e in b <==> e in multiset(b);
    }
  }

  /** Each unsorted bucket names a category of the type and holds that bucket's sum. */
  lemma TallyEntries(txs: seq<Transaction>, ty: TxType)
    ensures forall e :: e in TotalsBy(Filter(txs, OfType(ty)), BucketOf) ==>
      (exists t :: t in txs && t.txType == ty && BucketOf(t) == e.key)
      && e.total == KeySum(Filter(txs, OfType(ty)), BucketOf, e.key)
  {
    var filtered := Filter(txs, OfType(ty));
    var tally := TotalsBy(filtered, BucketOf);
    TotalsByCorrect(filtered, BucketOf);
    forall e | e in tally
      ensures (exists t :: t in txs && t.txType == ty && BucketOf(t) == e.key)
      ensures e.total == KeySum(filtered, BucketOf, e.key)
    {
      var i :| 0 <= i < |tally| && tally[i] == e;
      assert e.key in KeysOf(tally);
      LookupAt(tally, i);
      var t :| t in filtered && BucketOf(t) == e.key;
    }
  }

  /** Every record of the type falls in some unsorted bucket. */
  lemma TallyCovers(txs: seq<Transaction>, ty: TxType)
    ensures forall t :: t in txs && t.txType == ty ==>
      exists e :: e in TotalsBy(Filter(txs, OfType(ty)), BucketOf) && e.key == BucketOf(t)
  {
    var filtered := Filter(txs, OfType(ty));
    var tally := TotalsBy(filtered, BucketOf);
    TotalsByCorrect(filtered, BucketOf);
    forall t | t in txs && t.txType == ty
      ensures exists e :: e in tally && e.key == BucketOf(t)
    {
      assert OfType(ty)(t);
      assert BucketOf(t) in KeysOf(tally);
      var i :| 0 <= i < |tally| && KeysOf(tally)[i] == BucketOf(t);
      assert tally[i] in tally;
    }
  }

  /** A permutation of entries with distinct keys has distinct keys. */
  lemma DistinctAfterSort(a: seq<Entry>, b: seq<Entry>)
    requires DistinctKeys(a)
    requires multiset(a) == multiset(b)
    ensures DistinctKeys(b)
  {
    forall i, j | 0 <= i < j < |b|
      ensures b[i].key != b[j].key
    {
      if b[i].key == b[j].key {
        assert b[i] in multiset(b) && b[j] in multiset(b);
        var x :| 0 <= x < |a| && a[x] == b[i];
        var y :| 0 <= y < |a| && a[y] == b[j];
        if x == y {
          MultisetSingle(a, x);
          MultisetTwice(b, i, j);
        }
      }
    }
  }

  /** An element at two positions occurs at least twice. */
  lemma MultisetTwice(b: seq<Entry>, i: int, j: int)
    requires 0 <= i < j < |b| && b[i] == b[j]
    ensures multiset(b)[b[i]] >= 2
  {
    assert b == b[..i] + [b[i]] + b[i + 1..j] + [b[j]] + b[j + 1..];
  }

  /** With distinct keys, each entry occurs once. */
  lemma {:induction false} MultisetSingle(a: seq<Entry>, x: int)
    requires DistinctKeys(a)
    requires 0 <= x < |a|
    ensures multiset(a)[a[x]] == 1
  {
    if x == 0 {
      assert a == [a[0]] + a[1..];
      assert a[0] !in a[1..] by {
        forall k | 0 <= k < |a[1..]|
          ensures a[1..][k] != a[0]
        {
          assert a[1..][k] == a[k + 1];
        }
      }
    } else {
      assert a == [a[0]] + a[1..];
      assert DistinctKeys(a[1..]) by {
        forall i, j | 0 <= i < j < |a[1..]|
          ensures a[1..][i].key != a[1..][j].key
        {
          assert a[1..][i] == a[i + 1] && a[1..][j] == a[j + 1];
        }
      }
      MultisetSingle(a[1..], x - 1);
      assert a[1..][x - 1] == a[x];
      assert a[0] != a[x] by {
        assert a[0].key != a[x].key;
      }
    }
  }

  /**
   * With non-negative amounts the slices' values add up to the total: the
   * dropped tail, if any, sums to 0.
   */
  lemma ChartAddsUp(txs: seq<Transaction>, ty: TxType)
    requires forall t :: t in txs ==> t.amount >= 0.0
    ensures SumSlices(ChartOf(txs, ty).chartData) == ChartOf(txs, ty).totalAmount
  {
    if |Buckets(txs, ty)| > 5 {
      TailNonNegative(txs, ty);
    }
    TopFiveAddsUp(Buckets(txs, ty), ChartOf(txs, ty).totalAmount);
  }

  /** With non-negative amounts every bucket, and so the tail after five, is non-negative. */
  lemma TailNonNegative(txs: seq<Transaction>, ty: TxType)
    requires forall t :: t in txs ==> t.amount >= 0.0
    requires |Buckets(txs, ty)| > 5
    ensures SumEntries(Buckets(txs, ty)[5..]) >= 0.0
  {
    var data := Buckets(txs, ty);
    BucketsCorrect(txs, ty);
    forall e | e in data
      ensures e.total >= 0.0
    {
      KeySumNonNegative(Filter(txs, OfType(ty)), BucketOf, e.key);
    }
    SumEntriesNonNegative(data[5..]);
  }

  lemma {:induction false} KeySumNonNegative(txs: seq<Transaction>, key: Transaction -> string, c: string)
    requires forall t :: t in txs ==> t.amount >= 0.0
    ensures KeySum(txs, key, c) >= 0.0
  {
    if |txs| > 0 {
      KeySumNonNegative(txs[1..], key, c);
    }
  }

  lemma {:induction false} SumEntriesNonNegative(s: seq<Entry>)
    requires forall e :: e in s ==> e.total >= 0.0
    ensures SumEntries(s) >= 0.0
  {
    if |s| > 0 {
      SumEntriesNonNegative(s[1..]);
    }
  }

  /** With no positive total every percentage of a bucket is 0. */
  lemma NoTotalNoPercentage(txs: seq<Transaction>, ty: TxType)
    requires ChartOf(txs, ty).totalAmount <= 0.0
    ensures forall i :: 0 <= i < |ChartOf(txs, ty).chartData| && i < 5 ==> ChartOf(txs, ty).chartData[i].percentage == 0.0
  {
    var r := ChartOf(txs, ty);
    var data := Buckets(txs, ty);
    forall i | 0 <= i < |r.chartData| && i < 5
      ensures r.chartData[i].percentage == 0.0
    {
      if |data| > 5 {
        assert r.chartData[i] == r.chartData[..5][i];
      }
    }
  }
}
