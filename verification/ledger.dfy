/**
 * The transaction record and the aggregations every part of the dashboard
 * shares: filtering, summing amounts, the income/expense split with its
 * savings rate, and per-category totals kept in first-occurrence order (the
 * order in which a JavaScript object accumulates its keys).
 */
module Ledger {
  import opened Text
  import Calendar

  /**
   * `type` of a record. The source tests both `type === 'expense'` and
   * `type === 'income'`, and several reductions put everything that is not
   * income on the expense side, so values other than the two are kept.
   */
  datatype TxType = Income | Expense | OtherType(name: string)

  /** `subscriptionStatus`; `NoStatus` is the unset (`null`/`undefined`) value. */
  datatype Status = NoStatus | Detected | Confirmed | Dismissed

  /**
   * One income or expense event. `date` is a day number, `createdAt` a
   * timestamp in milliseconds (absent on records loaded from the server,
   * whose mapping does not copy it), `category` an opaque label.
   */
  datatype Transaction = Transaction(
    id: string,
    title: string,
    amount: real,
    txType: TxType,
    category: string,
    date: int,
    createdAt: Option<int>,
    status: Status,
    contextTag: Option<string>)

  predicate IsIncome(t: Transaction) { t.txType == Income }
  predicate IsExpense(t: Transaction) { t.txType == Expense }
  predicate NotIncome(t: Transaction) { t.txType != Income }

  /** The month index of the record's occurrence date. */
  function MonthOf(t: Transaction): int
  {
    Calendar.MonthOf(t.date)
  }

  /** `Array.prototype.filter`: the records satisfying `p`, in order. */
  function Filter(txs: seq<Transaction>, p: Transaction -> bool): (r: seq<Transaction>)
    ensures |r| <= |txs|
    ensures forall t :: t in r <==> t in txs && p(t)
  {
    if |txs| == 0 then []
    else (if p(txs[0]) then [txs[0]] else []) + Filter(txs[1..], p)
  }

  lemma {:induction false} FilterConcat(a: seq<Transaction>, b: seq<Transaction>, p: Transaction -> bool)
    ensures Filter(a + b, p) == Filter(a, p) + Filter(b, p)
  {
    if |a| > 0 {
      assert (a + b)[0] == a[0];
      assert (a + b)[1..] == a[1..] + b;
      FilterConcat(a[1..], b, p);
    } else {
      assert a + b == b;
    }
  }

  /** Filtering by a predicate every record satisfies keeps the list as it is. */
  lemma {:induction false} FilterKeepsAll(txs: seq<Transaction>, p: Transaction -> bool)
    requires forall t :: t in txs ==> p(t)
    ensures Filter(txs, p) == txs
  {
    if |txs| > 0 {
      FilterKeepsAll(txs[1..], p);
      assert txs == [txs[0]] + txs[1..];
    }
  }

  /** `Math.round`: the nearest integer, halves rounded up. */
  function Round(x: real): (n: int)
    ensures x - 0.5 < n as real <= x + 0.5
  {
    (x + 0.5).Floor
  }

  function Min(a: int, b: int): int { if a <= b then a else b }

  /** Occurs in month `month`. */
  function OfMonth(month: int): Transaction -> bool
  {
    t => MonthOf(t) == month
  }

  /** An expense of month `month`. */
  function ExpenseOfMonth(month: int): Transaction -> bool
  {
    t => IsExpense(t) && MonthOf(t) == month
  }

  /** The records of month `month`. */
  function InMonth(txs: seq<Transaction>, month: int): seq<Transaction>
  {
    Filter(txs, OfMonth(month))
  }

  /** The savings rate of month `month`, every non-income record counting as expense. */
  function MonthRate(txs: seq<Transaction>, month: int): real
  {
    Split(InMonth(txs, month)).Rate()
  }

  /** Sum of the amounts. */
  function Sum(txs: seq<Transaction>): real
  {
    if |txs| == 0 then 0.0 else txs[0].amount + Sum(txs[1..])
  }

  lemma {:induction false} SumConcat(a: seq<Transaction>, b: seq<Transaction>)
    ensures Sum(a + b) == Sum(a) + Sum(b)
  {
    if |a| > 0 {
      assert (a + b)[0] == a[0];
      assert (a + b)[1..] == a[1..] + b;
      SumConcat(a[1..], b);
    } else {
      assert a + b == b;
    }
  }

  /** A sum of non-negative amounts is non-negative. */
  lemma {:induction false} SumNonNegative(txs: seq<Transaction>)
    requires forall t :: t in txs ==> t.amount >= 0.0
    ensures Sum(txs) >= 0.0
  {
    if |txs| > 0 {
      SumNonNegative(txs[1..]);
    }
  }

  /**
   * The `{ income, expense }` accumulator of the source's reductions: income
   * records add to `income`, every other record to `expense`.
   */
  datatype Totals = Totals(income: real, expense: real)
  {
    /** `income - expense`. */
    function Savings(): real { income - expense }

    /** `(savings / income) * 100`, and 0 when there is no income. */
    function Rate(): (r: real)
      ensures income <= 0.0 ==> r == 0.0
      ensures income > 0.0 && expense <= income ==> 0.0 <= r
      ensures income > 0.0 && expense >= 0.0 ==> r <= 100.0
    {
      if income > 0.0 then
        var q := (income - expense) / income;
        assert q * income == income - expense;
        assert expense >= 0.0 ==> q <= 1.0;
        assert expense <= income ==> q >= 0.0;
        q * 100.0
      else 0.0
    }
  }

  /**
   * `income > 0 ? Math.round((income - expense) / income * 100) : 0`: the
   * savings rate in whole percent.
   */
  function RoundedRate(income: real, expense: real): (r: int)
    ensures income <= 0.0 ==> r == 0
    ensures income > 0.0 ==> r == Round(Totals(income, expense).Rate())
    ensures income > 0.0 && 0.0 <= expense <= income ==> 0 <= r <= 100
  {
    if income > 0.0 then Round((income - expense) / income * 100.0) else 0
  }

  lemma RoundMonotone(x: real, y: real)
    requires x <= y
    ensures Round(x) <= Round(y)
  {
  }

  /** More expense never raises the rounded savings rate. */
  lemma RoundedRateAntitone(income: real, e1: real, e2: real)
    requires e1 <= e2
    ensures RoundedRate(income, e2) <= RoundedRate(income, e1)
  {
    if income > 0.0 {
      assert (income - e2) / income <= (income - e1) / income;
      RoundMonotone((income - e2) / income * 100.0, (income - e1) / income * 100.0);
    }
  }

  /** The left-to-right reduction into a `Totals` accumulator. */
  function Split(txs: seq<Transaction>): Totals
  {
    if |txs| == 0 then Totals(0.0, 0.0)
    else
      var acc := Split(txs[..|txs| - 1]);
      var t := txs[|txs| - 1];
      if IsIncome(t) then Totals(acc.income + t.amount, acc.expense)
      else Totals(acc.income, acc.expense + t.amount)
  }

  /**
   * The split puts exactly the income records on the income side and all
   * remaining records on the expense side, so the two sides add up to the
   * sum of all amounts.
   */
  lemma SplitPartitions(txs: seq<Transaction>)
    ensures Split(txs).income == Sum(Filter(txs, IsIncome))
    ensures Split(txs).expense == Sum(Filter(txs, NotIncome))
    ensures Split(txs).income + Split(txs).expense == Sum(txs)
  {
    SplitIncome(txs);
    SplitExpense(txs);
    SplitTotal(txs);
  }

  lemma {:induction false} SplitIncome(txs: seq<Transaction>)
    ensures Split(txs).income == Sum(Filter(txs, IsIncome))
  {
    if |txs| > 0 {
      var init := txs[..|txs| - 1];
      var last := txs[|txs| - 1];
      assert txs == init + [last];
      SplitIncome(init);
      FilterConcat(init, [last], IsIncome);
      SumConcat(Filter(init, IsIncome), Filter([last], IsIncome));
      assert Filter([last], IsIncome) == if IsIncome(last) then [last] else [];
    }
  }

  lemma {:induction false} SplitExpense(txs: seq<Transaction>)
    ensures Split(txs).expense == Sum(Filter(txs, NotIncome))
  {
    if |txs| > 0 {
      var init := txs[..|txs| - 1];
      var last := txs[|txs| - 1];
      assert txs == init + [last];
      SplitExpense(init);
      FilterConcat(init, [last], NotIncome);
      SumConcat(Filter(init, NotIncome), Filter([last], NotIncome));
      assert Filter([last], NotIncome) == if NotIncome(last) then [last] else [];
    }
  }

  lemma {:induction false} SplitTotal(txs: seq<Transaction>)
    ensures Split(txs).income + Split(txs).expense == Sum(txs)
  {
    if |txs| > 0 {
      var init := txs[..|txs| - 1];
      var last := txs[|txs| - 1];
      assert txs == init + [last];
      SplitTotal(init);
      SumConcat(init, [last]);
    }
  }

  // ---------------------------------------------------------------------------
  // Per-key totals in first-occurrence order
  // ---------------------------------------------------------------------------

  /** One key of an object used as a `key -> running total` accumulator. */
  datatype Entry = Entry(key: string, total: real)

  function KeysOf(tally: seq<Entry>): (ks: seq<string>)
    ensures |ks| == |tally|
    ensures forall i :: 0 <= i < |tally| ==> ks[i] == tally[i].key
  {
    if |tally| == 0 then [] else [tally[0].key] + KeysOf(tally[1..])
  }

  /** No key appears twice. */
  predicate DistinctKeys(tally: seq<Entry>)
  {
    forall i, j :: 0 <= i < j < |tally| ==> tally[i].key != tally[j].key
  }

  /** `acc[key] || 0`: the running total of `key`, 0 when absent. */
  function Lookup(tally: seq<Entry>, key: string): real
  {
    if |tally| == 0 then 0.0
    else if tally[0].key == key then tally[0].total
    else Lookup(tally[1..], key)
  }

  /** With distinct keys, looking up the key at position `i` finds the total at `i`. */
  lemma {:induction false} LookupAt(tally: seq<Entry>, i: int)
    requires DistinctKeys(tally)
    requires 0 <= i < |tally|
    ensures Lookup(tally, tally[i].key) == tally[i].total
  {
    if i > 0 {
      LookupAt(tally[1..], i - 1);
    }
  }

  /**
   * `acc[key] = (acc[key] || 0) + amount`: adds to an existing key in place,
   * or appends a new key at the end.
   */
  function Bump(tally: seq<Entry>, key: string, amount: real): seq<Entry>
  {
    if |tally| == 0 then [Entry(key, amount)]
    else if tally[0].key == key then [Entry(key, tally[0].total + amount)] + tally[1..]
    else [tally[0]] + Bump(tally[1..], key, amount)
  }

  /** Bumping keeps the keys, appending `key` when it is new. */
  lemma {:induction false} BumpKeys(tally: seq<Entry>, key: string, amount: real)
    ensures key in KeysOf(tally) ==> KeysOf(Bump(tally, key, amount)) == KeysOf(tally)
    ensures key !in KeysOf(tally) ==> KeysOf(Bump(tally, key, amount)) == KeysOf(tally) + [key]
  {
    if |tally| > 0 {
      BumpKeys(tally[1..], key, amount);
      assert KeysOf(tally) == [tally[0].key] + KeysOf(tally[1..]);
      if tally[0].key != key {
        var b := Bump(tally, key, amount);
        assert KeysOf(b) == [tally[0].key] + KeysOf(Bump(tally[1..], key, amount));
      } else {
        assert KeysOf(Bump(tally, key, amount)) == [key] + KeysOf(tally[1..]);
      }
    }
  }

  /** Bumping adds `amount` to the total of `key` and leaves every other total alone. */
  lemma {:induction false} BumpLookup(tally: seq<Entry>, key: string, amount: real)
    ensures Lookup(Bump(tally, key, amount), key) == Lookup(tally, key) + amount
    ensures forall k :: k != key ==> Lookup(Bump(tally, key, amount), k) == Lookup(tally, k)
  {
    if |tally| > 0 {
      var b := Bump(tally, key, amount);
      if tally[0].key != key {
        BumpLookup(tally[1..], key, amount);
        assert b[1..] == Bump(tally[1..], key, amount);
      } else {
        assert b[1..] == tally[1..];
      }
    }
  }

  /** A key not among the keys of `tally[1..]` when the keys are distinct. */
  lemma HeadKeyNotInTail(tally: seq<Entry>)
    requires DistinctKeys(tally) && |tally| > 0
    ensures tally[0].key !in KeysOf(tally[1..])
  {
    forall i | 0 <= i < |tally[1..]|
      ensures KeysOf(tally[1..])[i] != tally[0].key
    {
      assert tally[1..][i] == tally[1 + i];
    }
  }

  /** Bumping keeps the keys distinct. */
  lemma {:induction false} BumpDistinct(tally: seq<Entry>, key: string, amount: real)
    requires DistinctKeys(tally)
    ensures DistinctKeys(Bump(tally, key, amount))
  {
    if |tally| > 0 && tally[0].key != key {
      var rest := Bump(tally[1..], key, amount);
      BumpDistinct(tally[1..], key, amount);
      BumpKeys(tally[1..], key, amount);
      HeadKeyNotInTail(tally);
      var b := Bump(tally, key, amount);
      assert b == [tally[0]] + rest;
      forall i, j | 0 <= i < j < |b|
        ensures b[i].key != b[j].key
      {
        if i == 0 {
          assert b[j].key == KeysOf(rest)[j - 1];
          assert b[j].key == key || b[j].key in KeysOf(tally[1..]);
        }
      }
    } else if |tally| > 0 {
      var b := Bump(tally, key, amount);
      forall i, j | 0 <= i < j < |b|
        ensures b[i].key != b[j].key
      {
        assert b[j] == tally[j];
        if i > 0 {
          assert b[i] == tally[i];
        }
      }
    }
  }

  lemma BumpFacts(tally: seq<Entry>, key: string, amount: real)
    requires DistinctKeys(tally)
    ensures DistinctKeys(Bump(tally, key, amount))
    ensures key in KeysOf(tally) ==> KeysOf(Bump(tally, key, amount)) == KeysOf(tally)
    ensures key !in KeysOf(tally) ==> KeysOf(Bump(tally, key, amount)) == KeysOf(tally) + [key]
    ensures Lookup(Bump(tally, key, amount), key) == Lookup(tally, key) + amount
    ensures forall k :: k != key ==> Lookup(Bump(tally, key, amount), k) == Lookup(tally, k)
  {
    BumpDistinct(tally, key, amount);
    BumpKeys(tally, key, amount);
    BumpLookup(tally, key, amount);
  }

  /** The sum of the amounts of the records whose key is `c`. */
  function KeySum(txs: seq<Transaction>, key: Transaction -> string, c: string): real
  {
    if |txs| == 0 then 0.0
    else (if key(txs[0]) == c then txs[0].amount else 0.0) + KeySum(txs[1..], key, c)
  }

  lemma {:induction false} KeySumConcat(a: seq<Transaction>, b: seq<Transaction>, key: Transaction -> string, c: string)
    ensures KeySum(a + b, key, c) == KeySum(a, key, c) + KeySum(b, key, c)
  {
    if |a| > 0 {
      assert (a + b)[0] == a[0];
      assert (a + b)[1..] == a[1..] + b;
      KeySumConcat(a[1..], b, key, c);
    } else {
      assert a + b == b;
    }
  }

  /**
   * `txs.reduce((acc, t) => { acc[key(t)] = (acc[key(t)] || 0) + t.amount; ... }, {})`:
   * the per-key totals, keys in order of first occurrence.
   */
  function TotalsBy(txs: seq<Transaction>, key: Transaction -> string): seq<Entry>
  {
    if |txs| == 0 then []
    else
      var t := txs[|txs| - 1];
      Bump(TotalsBy(txs[..|txs| - 1], key), key(t), t.amount)
  }

  /**
   * The totals hold each key of the records exactly once, and the total
   * looked up for any key is the sum of that key's amounts.
   */
  lemma TotalsByCorrect(txs: seq<Transaction>, key: Transaction -> string)
    ensures DistinctKeys(TotalsBy(txs, key))
    ensures forall c :: c in KeysOf(TotalsBy(txs, key)) <==> exists t :: t in txs && key(t) == c
    ensures forall c :: Lookup(TotalsBy(txs, key), c) == KeySum(txs, key, c)
  {
    TotalsByDistinct(txs, key);
    TotalsByKeys(txs, key);
    TotalsByLookup(txs, key);
  }

  lemma {:induction false} TotalsByDistinct(txs: seq<Transaction>, key: Transaction -> string)
    ensures DistinctKeys(TotalsBy(txs, key))
  {
    if |txs| > 0 {
      var init := txs[..|txs| - 1];
      var last := txs[|txs| - 1];
      TotalsByDistinct(init, key);
      BumpDistinct(TotalsBy(init, key), key(last), last.amount);
    }
  }

  lemma {:induction false} TotalsByKeys(txs: seq<Transaction>, key: Transaction -> string)
    ensures forall c :: c in KeysOf(TotalsBy(txs, key)) <==> exists t :: t in txs && key(t) == c
  {
    if |txs| > 0 {
      var init := txs[..|txs| - 1];
      var last := txs[|txs| - 1];
      assert txs == init + [last];
      TotalsByKeys(init, key);
      BumpKeys(TotalsBy(init, key), key(last), last.amount);
      forall c
        ensures c in KeysOf(TotalsBy(txs, key)) <==> exists t :: t in txs && key(t) == c
      {
        if c == key(last) {
          assert last in txs;
        } else if exists t :: t in txs && key(t) == c {
          var t :| t in txs && key(t) == c;
          assert t in init;
        }
      }
    }
  }

  lemma {:induction false} TotalsByLookup(txs: seq<Transaction>, key: Transaction -> string)
    ensures forall c :: Lookup(TotalsBy(txs, key), c) == KeySum(txs, key, c)
  {
    if |txs| > 0 {
      var init := txs[..|txs| - 1];
      var last := txs[|txs| - 1];
      assert txs == init + [last];
      TotalsByLookup(init, key);
      BumpLookup(TotalsBy(init, key), key(last), last.amount);
      forall c
        ensures Lookup(TotalsBy(txs, key), c) == KeySum(txs, key, c)
      {
        KeySumConcat(init, [last], key, c);
      }
    } else {
      forall c
        ensures Lookup(TotalsBy(txs, key), c) == KeySum(txs, key, c)
      {
      }
    }
  }

  function CategoryOf(t: Transaction): string { t.category }

  /** The sum of the amounts of the records whose category is `c`. */
  function CategorySum(txs: seq<Transaction>, c: string): real
  {
    KeySum(txs, CategoryOf, c)
  }

  /** The per-category totals, categories in order of first occurrence. */
  function CategoryTotals(txs: seq<Transaction>): seq<Entry>
  {
    TotalsBy(txs, CategoryOf)
  }

  /**
   * Category totals hold each category of the records exactly once, and the
   * total looked up for any category is the sum of that category's amounts.
   */
  lemma {:induction false} CategoryTotalsCorrect(txs: seq<Transaction>)
    ensures DistinctKeys(CategoryTotals(txs))
    ensures forall c :: c in KeysOf(CategoryTotals(txs)) <==> exists t :: t in txs && t.category == c
    ensures forall c :: Lookup(CategoryTotals(txs), c) == CategorySum(txs, c)
  {
    TotalsByCorrect(txs, CategoryOf);
  }
}
