/**
 * The subscription detector: expenses are grouped by a fuzzy identity (the
 * first six `[a-z0-9]` characters of the lower-cased title, plus the exact
 * amount) and a group is flagged as recurring, as a whole, when two of its
 * dates that are adjacent in ascending order lie 27 to 33 days apart.
 */
module Subscriptions {
  import opened Text
  import opened Ledger

  // ---------------------------------------------------------------------------
  // Fuzzy title key
  // ---------------------------------------------------------------------------

  /** The characters `/[^a-z0-9]/g` does not remove. */
  predicate IsKeyChar(c: char) { IsLower(c) || IsDigit(c) }

  /** `replace(/[^a-z0-9]/g, '')`: the key characters of `s`, in order. */
  function KeepKeyChars(s: string): (r: string)
    ensures |r| <= |s|
    ensures forall i :: 0 <= i < |r| ==> IsKeyChar(r[i])
    ensures forall c :: c in r <==> c in s && IsKeyChar(c)
  {
    if |s| == 0 then []
    else (if IsKeyChar(s[0]) then [s[0]] else []) + KeepKeyChars(s[1..])
  }

  /** Removing characters works piecewise: the kept characters of `a + b` are those of `a`, then those of `b`. */
  lemma {:induction false} KeepKeyCharsConcat(a: string, b: string)
    ensures KeepKeyChars(a + b) == KeepKeyChars(a) + KeepKeyChars(b)
  {
    if |a| > 0 {
      assert (a + b)[0] == a[0];
      assert (a + b)[1..] == a[1..] + b;
      KeepKeyCharsConcat(a[1..], b);
    } else {
      assert a + b == b;
    }
  }

  /**
   * `title.toLowerCase().replace(/[^a-z0-9]/g, '').substring(0, 6)`: the
   * first six key characters of the lower-cased title, or all of them when
   * there are fewer.
   */
  function NormalizeTitle(title: string): (r: string)
    ensures |r| <= 6
    ensures forall i :: 0 <= i < |r| ==> IsKeyChar(r[i])
    ensures |r| == Min(6, |KeepKeyChars(Lower(title))|)
    ensures r == KeepKeyChars(Lower(title))[..|r|]
  {
    var kept := KeepKeyChars(Lower(title));
    if |kept| <= 6 then kept else kept[..6]
  }

  lemma {:induction false} KeepKeyCharsOfKeyChars(s: string)
    requires forall i :: 0 <= i < |s| ==> IsKeyChar(s[i])
    ensures KeepKeyChars(s) == s
  {
    if |s| > 0 {
      KeepKeyCharsOfKeyChars(s[1..]);
      assert s == [s[0]] + s[1..];
    }
  }

  /** A normalised title is its own normalisation. */
  lemma NormalizeTitleIdempotent(title: string)
    ensures NormalizeTitle(NormalizeTitle(title)) == NormalizeTitle(title)
  {
    var r := NormalizeTitle(title);
    assert Lower(r) == r;
    KeepKeyCharsOfKeyChars(r);
  }

  /**
   * The grouping key. The source builds the string `${title}_${amount}`;
   * normalised titles contain no `_`, so that string identifies the pair.
   */
  datatype Key = Key(title: string, amount: real)

  function KeyOf(t: Transaction): Key
  {
    Key(NormalizeTitle(t.title), t.amount)
  }

  /** Expenses the detector considers: not already confirmed or dismissed. */
  predicate Eligible(t: Transaction)
  {
    IsExpense(t) && t.status != Confirmed && t.status != Dismissed
  }

  /** The key group `k`: eligible records with key `k`, in input order. */
  function Group(txs: seq<Transaction>, k: Key): (g: seq<Transaction>)
    ensures forall t :: t in g <==> t in txs && Eligible(t) && KeyOf(t) == k
  {
    if |txs| == 0 then []
    else
      var last := txs[|txs| - 1];
      assert txs == txs[..|txs| - 1] + [last];
      Group(txs[..|txs| - 1], k) + (if Eligible(last) && KeyOf(last) == k then [last] else [])
  }

  // ---------------------------------------------------------------------------
  // Monthly-gap test
  // ---------------------------------------------------------------------------

  predicate SortedAsc(s: seq<int>)
  {
    forall i, j :: 0 <= i < j < |s| ==> s[i] <= s[j]
  }

  function InsertAsc(s: seq<int>, x: int): (r: seq<int>)
    requires SortedAsc(s)
    ensures |r| == |s| + 1
    ensures r[0] == x || (|s| > 0 && r[0] == s[0])
    ensures SortedAsc(r)
    ensures multiset(r) == multiset(s) + multiset{x}
  {
    if |s| == 0 then [x]
    else if x <= s[0] then
      ConsSorted(x, s);
      [x] + s
    else
      assert s == [s[0]] + s[1..];
      var rest := InsertAsc(s[1..], x);
      ConsSorted(s[0], rest);
      assert multiset([s[0]] + rest) == multiset([s[0]]) + multiset(rest);
      [s[0]] + rest
  }

  lemma ConsSorted(h: int, r: seq<int>)
    requires SortedAsc(r) && (|r| > 0 ==> h <= r[0])
    ensures SortedAsc([h] + r)
  {
    var c := [h] + r;
    forall i, j | 0 <= i < j < |c|
      ensures c[i] <= c[j]
    {
      if i == 0 {
        assert c[j] == r[j - 1] && r[0] <= r[j - 1];
      } else {
        assert c[i] == r[i - 1] && c[j] == r[j - 1];
      }
    }
  }

  /** `[...group].sort((a, b) => a.date - b.date)`, on the dates alone. */
  function SortAsc(s: seq<int>): (r: seq<int>)
    ensures SortedAsc(r)
    ensures multiset(r) == multiset(s)
  {
    if |s| == 0 then []
    else
      assert s == s[..|s| - 1] + [s[|s| - 1]];
      InsertAsc(SortAsc(s[..|s| - 1]), s[|s| - 1])
  }

  function Dates(g: seq<Transaction>): (ds: seq<int>)
    ensures |ds| == |g|
    ensures forall i :: 0 <= i < |g| ==> ds[i] == g[i].date
  {
    if |g| == 0 then [] else [g[0].date] + Dates(g[1..])
  }

  function Abs(x: int): int { if x < 0 then -x else x }

  /** The gap test: 27 to 33 days between neighbours in the sorted dates. */
  predicate MonthlyGapAt(s: seq<int>, i: int)
    requires 1 <= i < |s|
  {
    27 <= Abs(s[i] - s[i - 1]) <= 33
  }

  predicate HasMonthlyGap(s: seq<int>)
  {
    exists i :: 1 <= i < |s| && MonthlyGapAt(s, i)
  }

  /** A key group of at least two records whose sorted dates hold a monthly gap. */
  predicate Recurring(g: seq<Transaction>)
  {
    |g| >= 2 && HasMonthlyGap(SortAsc(Dates(g)))
  }

  /**
   * An order-free reading of the gap test: the dates hold two values 27 to
   * 33 days apart with no date strictly between them.
   */
  predicate NeighbourGap(ds: seq<int>)
  {
    exists i, j :: 0 <= i < |ds| && 0 <= j < |ds| && 27 <= ds[j] - ds[i] <= 33
      && forall k :: 0 <= k < |ds| ==> !(ds[i] < ds[k] < ds[j])
  }

  lemma {:induction false} FirstOccurrence(s: seq<int>, j: int) returns (m: int)
    requires SortedAsc(s) && 0 <= j < |s|
    ensures 0 <= m <= j && s[m] == s[j]
    ensures m == 0 || s[m - 1] < s[m]
    decreases j
  {
    if j > 0 && s[j - 1] == s[j] {
      m := FirstOccurrence(s, j - 1);
    } else {
      m := j;
    }
  }

  lemma SameElements(ds: seq<int>, s: seq<int>)
    requires multiset(s) == multiset(ds)
    ensures forall x :: x in s <==> x in ds
  {
    forall x
      ensures x in s <==> x in ds
    {
      assert x in s <==> x in multiset(s);
      assert x in ds <==> x in multiset(ds);
    }
  }

  /** Nothing lies strictly between two neighbours of a sorted sequence. */
  lemma NothingBetweenNeighbours(s: seq<int>, i: int)
    requires SortedAsc(s) && 1 <= i < |s|
    ensures forall x :: x in s ==> !(s[i - 1] < x < s[i])
  {
    forall x | x in s
      ensures !(s[i - 1] < x < s[i])
    {
      var p :| 0 <= p < |s| && s[p] == x;
      if p <= i - 1 { assert s[p] <= s[i - 1]; } else { assert s[p] >= s[i]; }
    }
  }

  lemma SortedGapGivesNeighbourGap(ds: seq<int>)
    requires HasMonthlyGap(SortAsc(ds))
    ensures NeighbourGap(ds)
  {
    var s := SortAsc(ds);
    SameElements(ds, s);
    var i :| 1 <= i < |s| && MonthlyGapAt(s, i);
    var a, b := s[i - 1], s[i];
    assert a <= b;
    NothingBetweenNeighbours(s, i);
    assert a in s && b in s;
    var ia :| 0 <= ia < |ds| && ds[ia] == a;
    var ib :| 0 <= ib < |ds| && ds[ib] == b;
    forall k | 0 <= k < |ds|
      ensures !(a < ds[k] < b)
    {
      assert ds[k] in ds;
    }
    assert 27 <= ds[ib] - ds[ia] <= 33;
  }

  /** Two sorted values 27 to 33 apart with nothing strictly between them are neighbours. */
  lemma GapInSorted(s: seq<int>, a: int, b: int)
    requires SortedAsc(s) && a in s && b in s
    requires 27 <= b - a <= 33
    requires forall x :: x in s ==> !(a < x < b)
    ensures HasMonthlyGap(s)
  {
    var p :| 0 <= p < |s| && s[p] == a;
    var q :| 0 <= q < |s| && s[q] == b;
    var m := FirstOccurrence(s, q);
    assert p < m;
    assert s[m - 1] in s;
    assert s[p] <= s[m - 1];
    assert MonthlyGapAt(s, m);
  }

  lemma NeighbourGapGivesSortedGap(ds: seq<int>)
    requires NeighbourGap(ds)
    ensures HasMonthlyGap(SortAsc(ds))
  {
    var s := SortAsc(ds);
    SameElements(ds, s);
    var ia, ib :| 0 <= ia < |ds| && 0 <= ib < |ds| && 27 <= ds[ib] - ds[ia] <= 33
      && forall k :: 0 <= k < |ds| ==> !(ds[ia] < ds[k] < ds[ib]);
    var a, b := ds[ia], ds[ib];
    assert a in ds && b in ds;
    forall x | x in s
      ensures !(a < x < b)
    {
      var k :| 0 <= k < |ds| && ds[k] == x;
    }
    GapInSorted(s, a, b);
  }

  /** The gap test on the sorted dates means exactly `NeighbourGap`. */
  lemma SortedGapIsNeighbourGap(ds: seq<int>)
    ensures HasMonthlyGap(SortAsc(ds)) <==> NeighbourGap(ds)
  {
    if HasMonthlyGap(SortAsc(ds)) {
      SortedGapGivesNeighbourGap(ds);
    }
    if NeighbourGap(ds) {
      NeighbourGapGivesSortedGap(ds);
    }
  }

  // ---------------------------------------------------------------------------
  // Detector
  // ---------------------------------------------------------------------------

  /**
   * What the detector returns: the ids of the eligible expenses whose key
   * group is recurring.
   */
  function RecurringIds(txs: seq<Transaction>): set<string>
  {
    set t | t in txs && Eligible(t) && Recurring(Group(txs, KeyOf(t))) :: t.id
  }

  /** The gap loop over the sorted dates, stopping at the first hit. */
  method ScanForMonthlyGap(sorted: seq<int>) returns (found: bool)
    ensures found <==> HasMonthlyGap(sorted)
  {
    found := false;
    var i := 1;
    while i < |sorted|
      invariant 1 <= i <= |sorted| || |sorted| == 0
      invariant forall m :: 1 <= m < i && m < |sorted| ==> !MonthlyGapAt(sorted, m)
    {
      var diffDays := Abs(sorted[i] - sorted[i - 1]);
      if 27 <= diffDays <= 33 {
        assert MonthlyGapAt(sorted, i);
        return true;
      }
      i := i + 1;
    }
  }

  lemma GroupStep(txs: seq<Transaction>, i: int, k: Key)
    requires 0 <= i < |txs|
    ensures Group(txs[..i + 1], k)
      == Group(txs[..i], k) + (if Eligible(txs[i]) && KeyOf(txs[i]) == k then [txs[i]] else [])
  {
    assert txs[..i + 1][..i] == txs[..i];
  }

  /** The ids flagged by the key groups `keys`. */
  function FlaggedBy(txs: seq<Transaction>, keys: seq<Key>): set<string>
  {
    set t | t in txs && Eligible(t) && KeyOf(t) in keys && Recurring(Group(txs, KeyOf(t))) :: t.id
  }

  lemma FlaggedByStep(txs: seq<Transaction>, keys: seq<Key>, k: Key)
    ensures FlaggedBy(txs, keys + [k])
      == FlaggedBy(txs, keys) + (if Recurring(Group(txs, k)) then set t | t in Group(txs, k) :: t.id else {})
  {
  }

  /**
   * The grouping pass of `detectSubscriptions`: each eligible expense is
   * appended to the group of its key; keys are listed in order of first
   * appearance.
   */
  method GroupByKey(txs: seq<Transaction>) returns (groups: map<Key, seq<Transaction>>, order: seq<Key>)
    ensures forall k :: k in groups <==> k in order
    ensures forall k :: k in groups ==> groups[k] == Group(txs, k)
    ensures forall t :: t in txs && Eligible(t) ==> KeyOf(t) in groups
  {
    groups := map[];
    order := [];
    for i := 0 to |txs|
      invariant forall k :: k in groups <==> k in order
      invariant forall k :: k in groups ==> groups[k] == Group(txs[..i], k)
      invariant forall k :: k !in groups ==> Group(txs[..i], k) == []
    {
      var t := txs[i];
      if !IsExpense(t) || t.status == Confirmed || t.status == Dismissed {
        forall k
          ensures Group(txs[..i + 1], k) == Group(txs[..i], k)
        {
          GroupStep(txs, i, k);
        }
        continue;
      }
      var key := KeyOf(t);
      forall k | k != key
        ensures Group(txs[..i + 1], k) == Group(txs[..i], k)
      {
        GroupStep(txs, i, k);
      }
      GroupStep(txs, i, key);
      var previous := if key in groups then groups[key] else [];
      assert previous == Group(txs[..i], key);
      if key !in groups {
        order := order + [key];
      }
      groups := groups[key := previous + [t]];
    }
    assert txs[..|txs|] == txs;
    forall t | t in txs && Eligible(t)
      ensures KeyOf(t) in groups
    {
      assert t in Group(txs, KeyOf(t));
    }
  }

  /**
   * `detectSubscriptions`: after grouping, every member of each group of two
   * or more whose sorted dates hold a monthly gap is flagged.
   */
  method DetectSubscriptions(txs: seq<Transaction>) returns (ids: set<string>)
    ensures ids == RecurringIds(txs)
  {
    var groups, order := GroupByKey(txs);
    ids := {};
    for j := 0 to |order|
      invariant ids == FlaggedBy(txs, order[..j])
    {
      var group := groups[order[j]];
      assert order[..j + 1] == order[..j] + [order[j]];
      FlaggedByStep(txs, order[..j], order[j]);
      if |group| < 2 {
        continue;
      }
      var isRecurring := ScanForMonthlyGap(SortAsc(Dates(group)));
      if isRecurring {
        ids := ids + set t | t in group :: t.id;
      }
    }
    assert order[..|order|] == order;
    assert forall t :: t in txs && Eligible(t) ==> KeyOf(t) in order;
  }

  // ---------------------------------------------------------------------------
  // Properties
  // ---------------------------------------------------------------------------

  predicate UniqueIds(txs: seq<Transaction>)
  {
    forall i, j :: 0 <= i < j < |txs| ==> txs[i].id != txs[j].id
  }

  /** Every flagged id is the id of an eligible expense of the input. */
  lemma FlaggedAreEligibleExpenses(txs: seq<Transaction>, id: string)
    requires id in RecurringIds(txs)
    ensures exists t :: t in txs && t.id == id && IsExpense(t) && t.status != Confirmed && t.status != Dismissed
  {
  }

  /**
   * With unique ids, no income record and no confirmed or dismissed record
   * is ever flagged.
   */
  lemma NeverFlagsIneligible(txs: seq<Transaction>, t: Transaction)
    requires UniqueIds(txs) && t in txs && !Eligible(t)
    ensures t.id !in RecurringIds(txs)
  {
  }

  /** Records that share a group have equal normalised titles and amounts. */
  lemma GroupSharesKey(txs: seq<Transaction>, k: Key, t: Transaction, u: Transaction)
    requires t in Group(txs, k) && u in Group(txs, k)
    ensures NormalizeTitle(t.title) == NormalizeTitle(u.title) && t.amount == u.amount
  {
  }

  /** With unique ids, a record alone in its key group is never flagged. */
  lemma LoneRecordNotFlagged(txs: seq<Transaction>, t: Transaction)
    requires UniqueIds(txs) && t in txs && |Group(txs, KeyOf(t))| < 2
    ensures t.id !in RecurringIds(txs)
  {
  }

  /**
   * Group-wide flagging: with unique ids, when one member of a key group is
   * flagged, so is every other member.
   */
  lemma FlagsWholeGroup(txs: seq<Transaction>, t: Transaction, u: Transaction)
    requires UniqueIds(txs) && t in txs && u in txs
    requires Eligible(u) && KeyOf(t) == KeyOf(u)
    requires t.id in RecurringIds(txs)
    ensures u.id in RecurringIds(txs)
  {
    var w :| w in txs && Eligible(w) && Recurring(Group(txs, KeyOf(w))) && w.id == t.id;
    var i :| 0 <= i < |txs| && txs[i] == t;
    var j :| 0 <= j < |txs| && txs[j] == w;
    assert i == j;
    assert Recurring(Group(txs, KeyOf(u)));
    assert u in txs && Eligible(u);
  }

  /** No input, nothing flagged. */
  lemma EmptyInputFlagsNothing()
    ensures RecurringIds([]) == {}
  {
  }

  lemma PairGroup(t: Transaction, u: Transaction)
    requires Eligible(t) && Eligible(u) && KeyOf(t) == KeyOf(u)
    ensures Group([t, u], KeyOf(t)) == [t, u]
  {
    var k := KeyOf(t);
    assert [t, u][..1] == [t];
    assert [t][..0] == [];
    assert Group([t], k) == Group([], k) + [t];
    assert Group([t, u], k) == Group([t], k) + [u];
  }

  lemma PairSorted(a: int, b: int)
    requires a <= b
    ensures SortAsc([a, b]) == [a, b]
  {
    assert [a, b][..1] == [a];
    assert [a][..0] == [];
  }

  /** When every record is eligible and shares key `k`, the verdict on `k` decides all. */
  lemma SingleGroupVerdict(txs: seq<Transaction>, k: Key)
    requires forall w :: w in txs ==> Eligible(w) && KeyOf(w) == k
    ensures RecurringIds(txs) == if Recurring(Group(txs, k)) then set w | w in txs :: w.id else {}
  {
  }

  /**
   * Two same-key eligible expenses are both flagged when their dates are 27
   * to 33 days apart, and neither is flagged otherwise.
   */
  lemma PairFlaggedIffMonthApart(t: Transaction, u: Transaction)
    requires Eligible(t) && Eligible(u) && KeyOf(t) == KeyOf(u) && t.date <= u.date
    ensures RecurringIds([t, u]) == if 27 <= u.date - t.date <= 33 then {t.id, u.id} else {}
  {
    PairRecurringIffMonthApart(t, u);
    SingleGroupVerdict([t, u], KeyOf(t));
    assert (set w | w in [t, u] :: w.id) == {t.id, u.id};
  }

  lemma PairRecurringIffMonthApart(t: Transaction, u: Transaction)
    requires Eligible(t) && Eligible(u) && KeyOf(t) == KeyOf(u) && t.date <= u.date
    ensures Recurring(Group([t, u], KeyOf(t))) <==> 27 <= u.date - t.date <= 33
  {
    PairGroup(t, u);
    assert Dates([t, u]) == [t.date, u.date];
    PairSorted(t.date, u.date);
    PairGap(t.date, u.date);
  }

  lemma PairGap(a: int, b: int)
    requires a <= b
    ensures HasMonthlyGap([a, b]) <==> 27 <= b - a <= 33
  {
    assert HasMonthlyGap([a, b]) <==> MonthlyGapAt([a, b], 1);
  }

  function Netflix(id: string, date: int): Transaction
  {
    Transaction(id, "Netflix", 499.0, Expense, "Entertainment", date, None, NoStatus, None)
  }

  /** Two "Netflix" expenses of 499, 30 days apart, are both flagged; 40 days apart, neither. */
  lemma NetflixExamples()
    ensures RecurringIds([Netflix("a", 0), Netflix("b", 30)]) == {"a", "b"}
    ensures RecurringIds([Netflix("a", 0), Netflix("b", 40)]) == {}
  {
    PairFlaggedIffMonthApart(Netflix("a", 0), Netflix("b", 30));
    PairFlaggedIffMonthApart(Netflix("a", 0), Netflix("b", 40));
  }
}
