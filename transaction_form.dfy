/** The transaction entry form: reconciling a card-bill payment with the statement it pays,
    the adjustment expense for a bill higher than its purchases, the hint naming the statement
    a card purchase goes to, submission and the default category. The amount field always
    holds `toFixed(2)` of whole cents (see `Text.AmountInput`), so it is kept here as cents; a
    date field holds a day, and an empty date field is `None`. */
module TransactionForm {
  import opened Wrappers
  import opened Seqs
  import opened Text
  import opened Calendar
  import opened Model
  import opened Billing

  // ---------------------------------------------------------------------------------------
  // Bill reconciliation

  /** The outcome of `billAnalysis`. The window dates are `None` when the payment date is
      empty (JavaScript then holds invalid dates and no purchase falls in the window). */
  datatype BillAnalysis = BillAnalysis(
    sum: int, diff: int, count: nat,
    startDate: Option<Date>, endDate: Option<Date>,
    isMatch: bool, isHigher: bool, isLower: bool)

  /** Month index of the statement a bill paid on day `d` pays: the payment's month, or the
      month before when the payment comes before the closing day. */
  function TargetIndex(d: Date, cd: int): int
  {
    if d.day < cd then MonthIndex(d) - 1 else MonthIndex(d)
  }

  /** `targetYear` and `targetMonth`, the previous month taken through `new Date(y, m - 1, 1)`. */
  function TargetMonth(d: Date, cd: int): (ym: (int, int))
  {
    if d.day < cd then
      var t := MakeDate(d.year, d.month - 1, 1, 0);
      (t.year, t.month)
    else (d.year, d.month)
  }

  /** The target month is the statement month, a payment in January before the closing day
      paying December of the year before. */
  lemma TargetMonthIndex(d: Date, cd: int)
    ensures 12 * TargetMonth(d, cd).0 + TargetMonth(d, cd).1 == TargetIndex(d, cd)
    ensures 0 <= TargetMonth(d, cd).1 < 12
    ensures d.month == 0 && d.day < cd ==> TargetMonth(d, cd) == (d.year - 1, 11)
  {
    if d.day < cd {
      ClosingIsCivil(d.year, d.month - 1, 1);
      var py := if d.month == 0 then d.year - 1 else d.year;
      var pm := if d.month == 0 then 11 else d.month - 1;
      assert 12 * d.year + d.month - 1 == 12 * py + pm;
      MonthIndexSplit(py, pm);
    }
  }

  /** The card purchases in the statement that closes in month `tm` of year `ty`. */
  predicate InCycle(t: Transaction, ty: int, tm: int, cd: int)
  {
    IsCardExpense(t) && InStatement(t.date, ty, tm, cd)
  }

  /** Classes of the difference between the amount paid and the purchases, in cents: the
      `0.01` tolerance becomes "zero", "more than one cent above" and "more than one cent below". */
  function Classify(sum: int, diff: int, count: nat, startDate: Option<Date>, endDate: Option<Date>): BillAnalysis
  {
    BillAnalysis(sum, diff, count, startDate, endDate, diff == 0, diff > 1, diff < -1)
  }

  /** `billAnalysis` for a payment of `amount` cents on `date`, with closing day `cd`. */
  function AnalyzeBill(isCardBillPayment: bool, amount: int, date: Option<Date>,
                       transactions: seq<Transaction>, cd: int): (r: Option<BillAnalysis>)
    ensures r.None? <==> !isCardBillPayment
    ensures r.Some? ==> r.value.diff == amount - r.value.sum
  {
    if !isCardBillPayment then None
    else match date
      case None => Some(Classify(0, amount, 0, None, None))
      case Some(d) =>
        var (ty, tm) := TargetMonth(d, cd);
        var cycle := Filter(transactions, t => InCycle(t, ty, tm, cd));
        var sum := SumBy(cycle, Amount);
        Some(Classify(sum, amount - sum, |cycle|, Some(ClosingOf(ty, tm - 1, cd)), Some(MakeDate(ty, tm, cd - 1, SecondsPerDay - 1))))
  }

  /** The purchases a statement holds, by their statement index. */
  function CycleOf(transactions: seq<Transaction>, k: int, cd: int): seq<Transaction>
  {
    Filter(transactions, t => IsCardExpense(t) && StatementIndex(t.date, cd) == k)
  }

  /** For a valid closing day, the reconciliation counts and sums exactly the card purchases
      of the statement the payment pays: those whose statement index is the target index. */
  lemma AnalyzeBillCycle(amount: int, d: Date, transactions: seq<Transaction>, cd: int)
    requires ValidClosingDay(cd)
    ensures var r := AnalyzeBill(true, amount, Some(d), transactions, cd).value;
            var cycle := CycleOf(transactions, TargetIndex(d, cd), cd);
            r.count == |cycle| && r.sum == SumBy(cycle, Amount) && r.diff == amount - SumBy(cycle, Amount)
  {
    var (ty, tm) := TargetMonth(d, cd);
    TargetMonthIndex(d, cd);
    forall t | t in transactions
      ensures InCycle(t, ty, tm, cd) <==> IsCardExpense(t) && StatementIndex(t.date, cd) == TargetIndex(d, cd)
    {
      StatementMembership(t.date, ty, tm, cd);
    }
    FilterExt(transactions, t => InCycle(t, ty, tm, cd),
      t => IsCardExpense(t) && StatementIndex(t.date, cd) == TargetIndex(d, cd));
  }

  /** The window shown runs from the previous closing to one second before the target closing. */
  lemma AnalyzeBillWindow(amount: int, d: Date, transactions: seq<Transaction>, cd: int)
    ensures var r := AnalyzeBill(true, amount, Some(d), transactions, cd).value;
            var (ty, tm) := TargetMonth(d, cd);
            r.startDate == Some(ClosingOf(ty, tm - 1, cd))
            && r.endDate.Some? && Time(r.endDate.value) == Time(ClosingOf(ty, tm, cd)) - 1
  {
  }

  /** An empty payment date matches no purchase: the sum and count are zero and the whole
      amount is the difference. */
  lemma AnalyzeBillNoDate(amount: int, transactions: seq<Transaction>, cd: int)
    ensures var r := AnalyzeBill(true, amount, None, transactions, cd).value;
            r.sum == 0 && r.count == 0 && r.diff == amount && r.startDate.None? && r.endDate.None?
  {
  }

  /** At most one class holds; exact equality is a match, and a difference of one cent either
      way is none of the three. */
  lemma ClassesExclusive(isCardBillPayment: bool, amount: int, date: Option<Date>, transactions: seq<Transaction>, cd: int)
    requires isCardBillPayment
    ensures var r := AnalyzeBill(isCardBillPayment, amount, date, transactions, cd).value;
      && !(r.isMatch && r.isHigher) && !(r.isMatch && r.isLower) && !(r.isHigher && r.isLower)
      && (r.isMatch <==> r.sum == amount)
      && (r.isHigher <==> amount > r.sum + 1)
      && (r.isLower <==> amount < r.sum - 1)
      && (r.diff == 1 || r.diff == -1 ==> !r.isMatch && !r.isHigher && !r.isLower)
  {
  }

  // ---------------------------------------------------------------------------------------
  // Adjustment expense

  const AdjustmentDescription: string := "Ajuste Fatura (Taxas/Anuidade)"

  predicate IsBankFees(c: Category)
  {
    c.id == "bank_fees" || Contains(Lower(c.name), "taxas bancárias")
  }

  predicate IsOthers(c: Category)
  {
    c.id == "others" || Contains(Lower(c.name), "outros")
  }

  /** The category of the adjustment: bank fees, else others, else the first category. */
  function AdjustmentCategory(categories: seq<Category>): (r: Option<Category>)
    ensures r.None? <==> categories == []
    ensures r.Some? ==> r.value in categories
  {
    Find(categories, IsBankFees).OrElse(Find(categories, IsOthers))
      .OrElse(if categories == [] then None else Some(categories[0]))
  }

  /** `handleCreateAdjustment`: the expense recorded for a bill higher than its purchases.
      Without a category the handler fails before recording anything. */
  function CreateAdjustment(analysis: Option<BillAnalysis>, categories: seq<Category>,
                            paymentMethod: string, now: Date): Option<NewTransaction>
  {
    if analysis.None? || !analysis.value.isHigher then None
    else match AdjustmentCategory(categories)
      case None => None
      case Some(c) =>
        Some(NewTransaction(Despesa, AdjustmentDescription, analysis.value.diff, c.id, now, paymentMethod,
          false, None, None, false, false))
  }

  /** An adjustment exists exactly when the bill is higher and there is a category; it is an
      expense of exactly the difference, paid with the form's method, dated now, not a bill
      payment and not recurring, in the bank-fees category when there is one. */
  lemma CreateAdjustmentSpec(analysis: Option<BillAnalysis>, categories: seq<Category>, paymentMethod: string, now: Date)
    ensures var r := CreateAdjustment(analysis, categories, paymentMethod, now);
      && (r.Some? <==> analysis.Some? && analysis.value.isHigher && categories != [])
      && (r.Some? ==>
            r.value.ttype == Despesa && r.value.amount == analysis.value.diff
            && !r.value.isCardBillPayment && !r.value.isRecurring && r.value.date == now
            && r.value.paymentMethod == paymentMethod
            && (exists c :: c in categories && c.id == r.value.categoryId)
            && ((exists c :: c in categories && IsBankFees(c)) ==>
                  exists c :: c in categories && IsBankFees(c) && c.id == r.value.categoryId))
  {
    var r := CreateAdjustment(analysis, categories, paymentMethod, now);
    if r.Some? {
      var c := AdjustmentCategory(categories).value;
      if exists c' :: c' in categories && IsBankFees(c') {
        var c' :| c' in categories && IsBankFees(c');
        var i :| 0 <= i < |categories| && categories[i] == c';
        assert Find(categories, IsBankFees).Some?;
      }
    }
  }

  /** With a bill analysis, an adjustment closes the gap: adding it to the purchases makes the
      bill match. */
  lemma AdjustmentCloses(amount: int, d: Date, transactions: seq<Transaction>, cd: int,
                         categories: seq<Category>, paymentMethod: string, now: Date)
    requires categories != []
    ensures var a := AnalyzeBill(true, amount, Some(d), transactions, cd);
            a.value.isHigher ==> CreateAdjustment(a, categories, paymentMethod, now).value.amount > 1
                                 && a.value.sum + CreateAdjustment(a, categories, paymentMethod, now).value.amount == amount
  {
    CreateAdjustmentSpec(AnalyzeBill(true, amount, Some(d), transactions, cd), categories, paymentMethod, now);
  }

  // ---------------------------------------------------------------------------------------
  // Statement hint

  datatype CycleHint = CurrentMonthBill | NextMonthBill

  /** The message under the date field: only for a card expense with a date, naming the
      statement of this month before the closing day and of next month from it on. */
  function BillingCycleMessage(paymentMethod: string, date: Option<Date>, ttype: TransactionType, cd: int): (r: Option<CycleHint>)
  {
    if paymentMethod == CreditCard && date.Some? && ttype == Despesa then
      if date.value.day < cd then Some(CurrentMonthBill) else Some(NextMonthBill)
    else None
  }

  /** The hint exists exactly for a dated card expense, and for a valid closing day it names
      the statement the purchase belongs to. */
  lemma BillingCycleMessageSpec(paymentMethod: string, date: Option<Date>, ttype: TransactionType, cd: int)
    ensures var r := BillingCycleMessage(paymentMethod, date, ttype, cd);
      && (r.Some? <==> paymentMethod == CreditCard && date.Some? && ttype == Despesa)
      && (r == Some(CurrentMonthBill) ==> StatementIndex(date.value, cd) == MonthIndex(date.value))
      && (r == Some(NextMonthBill) ==> StatementIndex(date.value, cd) == MonthIndex(date.value) + 1)
  {
  }

  /** The hint and the reports agree: for a card purchase the form announces next month's
      statement exactly when the reports move the purchase to the next month. */
  lemma HintAgreesWithEffectiveDate(t: Transaction, cd: int)
    requires ValidClosingDay(cd) && IsCardExpense(t)
    ensures BillingCycleMessage(t.paymentMethod, Some(t.date), t.ttype, cd) == Some(NextMonthBill)
            <==> EffectiveDate(t, cd) != t.date
  {
    EffectiveDateIsStatementMonth(t, cd);
  }

  // ---------------------------------------------------------------------------------------
  // Submission

  /** The fields of the form when it is submitted. `editing` holds the id and series id of the
      transaction being edited. */
  datatype FormState = FormState(
    ttype: TransactionType,
    amount: int,
    description: string,
    categoryId: string,
    date: Option<Date>,
    paymentMethod: string,
    isRecurring: bool,
    frequency: Frequency,
    endDate: Option<Date>,
    isCardBillPayment: bool,
    isInvestmentWithdrawal: bool,
    editing: Option<(nat, Option<nat>)>)

  datatype Submission =
    | Rejected                    // the "fill in the required fields" notification
    | Failed                      // an empty date: `toISOString` of an invalid date throws
    | Create(tx: NewTransaction)
    | Update(t: Transaction)

  const InvestmentPaymentMethod: string := "N/A"

  /** A form day at a time of day (`${date}T${time}`). */
  function AtSecond(day: Date, sec: int): Date
    requires 0 <= sec < SecondsPerDay
  {
    Civil(day.year, day.month, day.day, sec)
  }

  /** `handleSubmit`, at second `nowSec` of the current day. */
  function HandleSubmit(f: FormState, nowSec: int): Submission
    requires 0 <= nowSec < SecondsPerDay
  {
    if f.amount <= 0 || f.description == "" || (f.isRecurring && f.endDate.None?) then Rejected
    else if f.date.None? then Failed
    else
      var data := NewTransaction(
        f.ttype, f.description, f.amount, f.categoryId, AtSecond(f.date.value, nowSec),
        if f.ttype == Investimento then InvestmentPaymentMethod else f.paymentMethod,
        f.isRecurring,
        if f.isRecurring then Some(f.frequency) else None,
        if f.isRecurring then Some(AtSecond(f.endDate.value, SecondsPerDay - 1)) else None,
        f.isCardBillPayment, f.isInvestmentWithdrawal);
      match f.editing
      case None => Create(data)
      case Some((id, rid)) => Update(WithIds(data, id, rid))
  }

  /** Submission is refused exactly for a non-positive amount, an empty description, or a
      recurring entry without an end date. An accepted entry carries every field of the form,
      is dated on the form's day at the current time, pays investments with 'N/A', and carries a
      frequency and an end date (that day at 23:59:59) exactly when recurring. An edit submits
      the very same fields as a new entry, with the edited row's id and series id. */
  lemma HandleSubmitSpec(f: FormState, nowSec: int)
    requires 0 <= nowSec < SecondsPerDay
    ensures var r := HandleSubmit(f, nowSec);
      && (r == Rejected <==> f.amount <= 0 || f.description == "" || (f.isRecurring && f.endDate.None?))
      && (r == Failed <==> r != Rejected && f.date.None?)
      && (r.Create? <==> r != Rejected && f.date.Some? && f.editing.None?)
      && (r.Update? <==> r != Rejected && f.date.Some? && f.editing.Some?)
      && (r.Create? ==>
            r.tx.amount == f.amount > 0 && r.tx.description == f.description && r.tx.ttype == f.ttype
            && r.tx.categoryId == f.categoryId
            && r.tx.date == Civil(f.date.value.year, f.date.value.month, f.date.value.day, nowSec)
            && (r.tx.paymentMethod == if f.ttype == Investimento then InvestmentPaymentMethod else f.paymentMethod)
            && r.tx.isRecurring == f.isRecurring
            && r.tx.isCardBillPayment == f.isCardBillPayment
            && r.tx.isInvestmentWithdrawal == f.isInvestmentWithdrawal
            && (r.tx.frequency.Some? <==> f.isRecurring) && (r.tx.endDate.Some? <==> f.isRecurring)
            && (f.isRecurring ==>
                  && r.tx.frequency == Some(f.frequency)
                  && r.tx.endDate.value == Civil(f.endDate.value.year, f.endDate.value.month,
                                                 f.endDate.value.day, SecondsPerDay - 1)))
      && (r.Update? ==>
            var created := HandleSubmit(f.(editing := None), nowSec);
            && created.Create?
            && r.t == WithIds(created.tx, f.editing.value.0, f.editing.value.1))
  {
  }

  // ---------------------------------------------------------------------------------------
  // Default category

  predicate IsInvestmentCategory(c: Category)
  {
    Lower(c.name) == "investimentos" || c.id == "investments"
  }

  predicate IsFood(c: Category)
  {
    c.id == "food"
  }

  function FirstId(categories: seq<Category>): Option<string>
  {
    if categories == [] then None else Some(categories[0].id)
  }

  /** `getDefaultCategoryId`: the edited transaction's category; for an investment the
      investment category; otherwise the food category; failing those the first category. An
      empty id counts as missing, as `||` treats it. */
  function DefaultCategoryId(initial: Option<string>, ttype: TransactionType, categories: seq<Category>): Option<string>
  {
    if initial.Some? && initial.value != "" then initial
    else if ttype == Investimento then
      match Find(categories, IsInvestmentCategory)
      case Some(c) => if c.id != "" then Some(c.id) else FirstId(categories)
      case None => FirstId(categories)
    else
      match Find(categories, IsFood)
      case Some(c) => Some(c.id)
      case None => FirstId(categories)
  }

  /** The default is the given category when there is one, and otherwise the id of an existing
      category: the investment or food category when present, else the first; with no
      category at all there is none. */
  lemma DefaultCategoryIdSpec(initial: Option<string>, ttype: TransactionType, categories: seq<Category>)
    ensures var r := DefaultCategoryId(initial, ttype, categories);
      && (initial.Some? && initial.value != "" ==> r == initial)
      && (!(initial.Some? && initial.value != "") ==>
            (r.None? <==> categories == [])
            && (r.Some? ==> exists c :: c in categories && c.id == r.value)
            && (ttype == Investimento && (forall c :: c in categories ==> c.id != "")
                && (exists c :: c in categories && IsInvestmentCategory(c)) ==>
                  exists c :: c in categories && IsInvestmentCategory(c) && c.id == r.value)
            && (ttype != Investimento && (exists c :: c in categories && IsFood(c)) ==> r == Some("food")))
  {
    if !(initial.Some? && initial.value != "") && ttype == Investimento {
      var found := Find(categories, IsInvestmentCategory);
      if exists c :: c in categories && IsInvestmentCategory(c) {
        var c :| c in categories && IsInvestmentCategory(c);
        var i :| 0 <= i < |categories| && categories[i] == c;
        assert found.Some?;
      }
    }
    if !(initial.Some? && initial.value != "") && ttype != Investimento {
      if exists c :: c in categories && IsFood(c) {
        var c :| c in categories && IsFood(c);
        var i :| 0 <= i < |categories| && categories[i] == c;
      }
    }
  }
}
