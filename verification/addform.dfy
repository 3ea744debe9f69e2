/**
 * The add-transaction form: the pre-spend simulator that projects a
 * hypothetical expense onto the current period, and the submit handler's
 * validation and record construction.
 */
module AddForm {
  import opened Text
  import opened Ledger

  datatype Mode = RecordMode | SimulateMode

  /**
   * The amount input: empty, or a number (the input is of type `number`, so
   * its value is either the empty string or numeric text).
   */
  datatype AmountField = Blank | Number(value: real)

  datatype Form = Form(
    mode: Mode,
    txType: TxType,
    title: string,
    amount: AmountField,
    category: string,
    date: int,
    notes: string,
    contextTag: Option<string>)

  /** The `currentStats` the dashboard passes in. */
  datatype Stats = Stats(totalIncome: real, totalExpense: real, savingsRate: int)

  datatype Simulation = Simulation(
    currentRate: int,
    newRate: int,
    rateChange: int,
    currentCategoryTotal: real,
    newCategoryTotal: real,
    categoryPercentIncrease: int)

  /** The expense total of category `c`. */
  function ExpenseIn(txs: seq<Transaction>, c: string): real
  {
    CategorySum(Filter(txs, IsExpense), c)
  }

  /**
   * `simulationResult`: none outside simulation mode, without an amount or a
   * category, or for a non-positive amount; otherwise the projected savings
   * rate and category total after spending the amount.
   */
  function SimulationResult(form: Form, stats: Stats, current: seq<Transaction>): (r: Option<Simulation>)
    ensures r.Some? <==>
      form.mode == SimulateMode && form.amount.Number? && form.category != "" && form.amount.value > 0.0
    ensures r.Some? ==>
      var amount := form.amount.value;
      && r.value.currentRate == stats.savingsRate
      && r.value.newRate == RoundedRate(stats.totalIncome, stats.totalExpense + amount)
      && r.value.rateChange == r.value.newRate - r.value.currentRate
      && r.value.currentCategoryTotal == ExpenseIn(current, form.category)
      && r.value.newCategoryTotal == r.value.currentCategoryTotal + amount
      && (r.value.currentCategoryTotal <= 0.0 ==> r.value.categoryPercentIncrease == 100)
      && (r.value.currentCategoryTotal > 0.0 ==>
            r.value.categoryPercentIncrease == Round(amount / r.value.currentCategoryTotal * 100.0)
            && r.value.categoryPercentIncrease >= 0)
  {
    if form.mode != SimulateMode || form.amount.Blank? || form.category == "" then None
    else
      var amount := form.amount.value;
      if amount <= 0.0 then None
      else
        var currentRate := stats.savingsRate;
        var newTotalExpense := stats.totalExpense + amount;
        var newRate := RoundedRate(stats.totalIncome, newTotalExpense);
        var currentCategoryTotal := Sum(Filter(current, ExpenseOfCategory(form.category)));
        ExpenseOfCategorySum(current, form.category);
        var newCategoryTotal := currentCategoryTotal + amount;
        var increase :=
          if currentCategoryTotal > 0.0 then
            assert (newCategoryTotal - currentCategoryTotal) / currentCategoryTotal * 100.0 >= 0.0;
            Round((newCategoryTotal - currentCategoryTotal) / currentCategoryTotal * 100.0)
          else 100;
        Some(Simulation(currentRate, newRate, newRate - currentRate, currentCategoryTotal, newCategoryTotal, increase))
  }

  /** An expense of category `c`. */
  function ExpenseOfCategory(c: string): Transaction -> bool
  {
    (t: Transaction) => t.category == c && IsExpense(t)
  }

  /** Summing the filtered expenses of a category is that category's expense total. */
  lemma {:induction false} ExpenseOfCategorySum(txs: seq<Transaction>, c: string)
    ensures Sum(Filter(txs, ExpenseOfCategory(c))) == ExpenseIn(txs, c)
  {
    if |txs| > 0 {
      ExpenseOfCategorySum(txs[1..], c);
      var t := txs[0];
      var rest := Filter(txs[1..], ExpenseOfCategory(c));
      if ExpenseOfCategory(c)(t) {
        assert Filter(txs, ExpenseOfCategory(c)) == [t] + rest;
        assert ([t] + rest)[1..] == rest;
      } else {
        assert Filter(txs, ExpenseOfCategory(c)) == rest;
      }
      if IsExpense(t) {
        var es := Filter(txs[1..], IsExpense);
        assert Filter(txs, IsExpense) == [t] + es;
        assert ([t] + es)[1..] == es;
      } else {
        assert Filter(txs, IsExpense) == Filter(txs[1..], IsExpense);
      }
    }
  }

  /**
   * When the stats are consistent, a simulated expense never raises the
   * savings rate: the rate change is at most 0.
   */
  lemma SimulationNeverRaisesRate(form: Form, stats: Stats, current: seq<Transaction>)
    requires stats.savingsRate == RoundedRate(stats.totalIncome, stats.totalExpense)
    requires form.mode == SimulateMode && form.amount.Number? && form.amount.value > 0.0 && form.category != ""
    ensures SimulationResult(form, stats, current).Some?
    ensures SimulationResult(form, stats, current).value.rateChange <= 0
  {
    RoundedRateAntitone(stats.totalIncome, stats.totalExpense, stats.totalExpense + form.amount.value);
  }

  /** The record the form hands to the dashboard. */
  datatype Draft = Draft(
    id: string,
    txType: TxType,
    title: string,
    amount: real,
    category: string,
    date: int,
    notes: string,
    contextTag: Option<string>,
    createdAt: int)

  datatype Outcome = BackToRecording | Rejected | Added(draft: Draft)

  /**
   * `handleSubmit`: leaves simulation mode; rejects a blank trimmed title, a
   * blank amount or an empty category; otherwise builds the record, with the
   * title and notes trimmed and the context tag kept only for expenses. `id`
   * and `now` stand for `Date.now()` and the creation time.
   */
  function HandleSubmit(form: Form, id: string, now: int): (r: Outcome)
    ensures form.mode == SimulateMode <==> r == BackToRecording
    ensures r == Rejected <==> form.mode == RecordMode && !Complete(form)
    ensures r.Added? ==>
      && form.amount.Number? && r.draft.amount == form.amount.value
      && r.draft.title == Trim(form.title) && r.draft.title != ""
      && r.draft.notes == Trim(form.notes)
      && r.draft.category == form.category && r.draft.category != ""
      && r.draft.txType == form.txType && r.draft.date == form.date
      && (form.txType != Expense ==> r.draft.contextTag == None)
      && (form.txType == Expense ==> r.draft.contextTag == form.contextTag)
  {
    if form.mode == SimulateMode then BackToRecording
    else if !Complete(form) then
      assert form.mode == RecordMode;
      Rejected
    else
      Added(Draft(id, form.txType, Trim(form.title), form.amount.value, form.category, form.date,
                  Trim(form.notes), if form.txType == Expense then form.contextTag else None, now))
  }

  /** The fields the form requires: a title that is not blank once trimmed, an amount and a category. */
  predicate Complete(form: Form)
  {
    Trim(form.title) != "" && form.amount.Number? && form.category != ""
  }

  /** Submitting the built record's title again yields the same title. */
  lemma TitleStable(form: Form, id: string, now: int)
    requires HandleSubmit(form, id, now).Added?
    ensures Trim(HandleSubmit(form, id, now).draft.title) == HandleSubmit(form, id, now).draft.title
  {
    TrimIdempotent(form.title);
  }
}
