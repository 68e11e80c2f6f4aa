/** The dashboard summary of the current month: what came in, what went out, what was
    invested, the open and the next card statement, what is still scheduled, and how the
    balance and the invested total moved since the end of the previous month. `now` and the
    current balance are inputs (the clock and the balance of the data hook). */
module Dashboard {
  import opened Wrappers
  import opened Seqs
  import opened Calendar
  import opened Model
  import opened Billing

  /** The first moment of the current month. */
  function MonthStartOf(now: Date): Date
  {
    Civil(now.year, now.month, 1, 0)
  }

  /** The last second of the current month. */
  function MonthEndOf(now: Date): Date
  {
    Civil(now.year, now.month, DaysInMonth(now.year, now.month), SecondsPerDay - 1)
  }

  /** `new Date(year, month, 1)` is day 1 of the month of `now` at 00:00. */
  lemma MonthStartIsMakeDate(now: Date)
    ensures MakeDate(now.year, now.month, 1, 0) == MonthStartOf(now)
  {
    MakeDateValid(MonthStartOf(now));
  }

  /** `new Date(year, month + 1, 0, 23, 59, 59)` is the last day of the month of `now` at
      23:59:59. */
  lemma MonthEndIsMakeDate(now: Date)
    ensures MakeDate(now.year, now.month + 1, 0, SecondsPerDay - 1) == MonthEndOf(now)
  {
    var e := MakeDate(now.year, now.month + 1, 0, SecondsPerDay - 1);
    DayZeroIsLastOfPreviousMonth(now.year, now.month + 1, SecondsPerDay - 1);
    MonthIndexSplit(now.year, now.month);
    assert e.year == now.year && e.month == now.month;
  }

  /** The dated window `monthStart <= d <= monthEnd` selects exactly the moments of the month
      of `now`. */
  lemma MonthWindow(d: Date, now: Date)
    ensures AtOrBefore(MonthStartOf(now), d) && AtOrBefore(d, MonthEndOf(now)) <==> MonthIndex(d) == MonthIndex(now)
  {
  }

  predicate InMonthOf(t: Transaction, now: Date)
  {
    AtOrBefore(MonthStartOf(now), t.date) && AtOrBefore(t.date, MonthEndOf(now))
  }

  /** An expense settled outside the card: not a card purchase and not a bill payment. */
  predicate IsPlainExpense(t: Transaction)
  {
    t.ttype == Despesa && t.paymentMethod != CreditCard && !t.isCardBillPayment
  }

  predicate IsIncome(t: Transaction)
  {
    t.ttype == Receita
  }

  predicate IsInvestment(t: Transaction)
  {
    t.ttype == Investimento
  }

  /** Scheduled: dated strictly after now. */
  predicate IsPending(t: Transaction, now: Date)
  {
    Before(now, t.date)
  }

  /** A card purchase in the statement that closes this month. */
  predicate InCurrentCard(t: Transaction, now: Date, cd: int)
  {
    IsCardExpense(t) && InStatement(t.date, now.year, now.month, cd)
  }

  /** A card purchase made at or after this month's closing: it goes to a later statement. */
  predicate InPlanningCard(t: Transaction, now: Date, cd: int)
  {
    IsCardExpense(t) && Time(t.date) >= Time(ClosingOf(now.year, now.month, cd))
  }

  datatype DashboardData = DashboardData(
    balanceVariation: real,
    investmentVariation: real,
    currentTotalInvested: int,
    listIncome: seq<Transaction>,
    listExpenses: seq<Transaction>,
    listInvestments: seq<Transaction>,
    listCurrentCard: seq<Transaction>,
    listPendingIncome: seq<Transaction>,
    listPendingExpenses: seq<Transaction>,
    listPendingInvestments: seq<Transaction>,
    listPlanningCard: seq<Transaction>,
    monthIncome: int,
    monthExpenses: int,
    monthInvestments: int,
    currentCardBill: int,
    pendingIncome: int,
    pendingExpenses: int,
    pendingInvestments: int,
    planningCardBill: int)

  /** What a transaction does to the balance as the previous-month total counts it: income
      adds, an expense other than a bill payment subtracts, an investment is not counted. */
  function PrevEffect(t: Transaction): int
  {
    if t.ttype == Receita then t.amount
    else if t.ttype == Despesa && !t.isCardBillPayment then -t.amount
    else 0
  }

  /** The cut-off of the previous-month totals as the dashboard writes it: 00:00 of the last
      day of the previous month. */
  function PrevMonthEndAsWritten(now: Date): Date
  {
    if now.month == 0 then Civil(now.year - 1, 11, 31, 0)
    else Civil(now.year, now.month - 1, DaysInMonth(now.year, now.month - 1), 0)
  }

  /** `new Date(year, month, 0)` is that moment. */
  lemma PrevMonthEndIsMakeDate(now: Date)
    ensures MakeDate(now.year, now.month, 0, 0) == PrevMonthEndAsWritten(now)
  {
    var r := MakeDate(now.year, now.month, 0, 0);
    DayZeroIsLastOfPreviousMonth(now.year, now.month, 0);
    PrevMonthEndPlace(now);
    SameMoment(r, PrevMonthEndAsWritten(now));
  }

  /** The cut-off lies on the last day of the month before the month of `now`. */
  lemma PrevMonthEndPlace(now: Date)
    ensures MonthIndex(PrevMonthEndAsWritten(now)) == MonthIndex(now) - 1
    ensures PrevMonthEndAsWritten(now).day == MonthLength(MonthIndex(now) - 1)
  {
    if now.month == 0 {
      MonthIndexSplit(now.year - 1, 11);
    } else {
      MonthIndexSplit(now.year, now.month - 1);
    }
  }

  /** The balance at the end of the previous month as written: rows dated at or before 00:00 of
      the previous month's last day. */
  function PrevTotalBalanceAsWritten(rows: seq<Transaction>, initialBalance: int, now: Date): int
  {
    SumBy(Filter(rows, (t: Transaction) => AtOrBefore(t.date, PrevMonthEndAsWritten(now))), PrevEffect) + initialBalance
  }

  /** The balance at the end of the previous month: every row dated before this month starts. */
  function PrevTotalBalance(rows: seq<Transaction>, initialBalance: int, now: Date): int
  {
    SumBy(Filter(rows, (t: Transaction) => Before(t.date, MonthStartOf(now))), PrevEffect) + initialBalance
  }

  /** The invested total at the end of the previous month as written. */
  function PrevTotalInvestedAsWritten(rows: seq<Transaction>, initialInvestment: int, now: Date): int
  {
    SumBy(Filter(rows, (t: Transaction) => IsInvestment(t) && AtOrBefore(t.date, PrevMonthEndAsWritten(now))), NetInvestment)
      + initialInvestment
  }

  /** The invested total at the end of the previous month: investment rows before this month. */
  function PrevTotalInvested(rows: seq<Transaction>, initialInvestment: int, now: Date): int
  {
    SumBy(Filter(rows, (t: Transaction) => IsInvestment(t) && Before(t.date, MonthStartOf(now))), NetInvestment)
      + initialInvestment
  }

  /** The invested total now: contributions minus withdrawals dated up to now. */
  function CurrentTotalInvested(rows: seq<Transaction>, initialInvestment: int, now: Date): int
  {
    SumBy(Filter(rows, (t: Transaction) => IsInvestment(t) && AtOrBefore(t.date, now)), NetInvestment) + initialInvestment
  }

  function Abs(x: int): nat
  {
    if x < 0 then -x else x
  }

  /** Percentage change from `previous` to `current`, relative to the size of `previous`;
      0 when there is nothing to compare with. */
  function Variation(current: int, previous: int): real
  {
    if previous != 0 then ((current - previous) as real / Abs(previous) as real) * 100.0 else 0.0
  }

  /** The rows of the month of `now` that satisfy `kind`. */
  function MonthList(rows: seq<Transaction>, now: Date, kind: Transaction -> bool): seq<Transaction>
  {
    Filter(Filter(rows, (t: Transaction) => InMonthOf(t, now)), kind)
  }

  /** The rows dated after now that satisfy `kind`. */
  function PendingList(rows: seq<Transaction>, now: Date, kind: Transaction -> bool): seq<Transaction>
  {
    Filter(Filter(rows, (t: Transaction) => IsPending(t, now)), kind)
  }

  function CurrentCardList(rows: seq<Transaction>, now: Date, cd: int): seq<Transaction>
  {
    Filter(rows, (t: Transaction) => InCurrentCard(t, now, cd))
  }

  function PlanningCardList(rows: seq<Transaction>, now: Date, cd: int): seq<Transaction>
  {
    Filter(rows, (t: Transaction) => InPlanningCard(t, now, cd))
  }

  /** The month figures of the dashboard. */
  function ComputeDashboard(rows: seq<Transaction>, totalBalance: int, cd: int, initialInvestment: int,
                            initialBalance: int, now: Date): DashboardData
  {
    var listIncome := MonthList(rows, now, IsIncome);
    var listExpenses := MonthList(rows, now, IsPlainExpense);
    var listInvestments := MonthList(rows, now, IsInvestment);
    var listCurrentCard := CurrentCardList(rows, now, cd);
    var listPendingIncome := PendingList(rows, now, IsIncome);
    var listPendingExpenses := PendingList(rows, now, IsPlainExpense);
    var listPendingInvestments := PendingList(rows, now, IsInvestment);
    var listPlanningCard := PlanningCardList(rows, now, cd);
    var invested := CurrentTotalInvested(rows, initialInvestment, now);
    DashboardData(
      Variation(totalBalance, PrevTotalBalance(rows, initialBalance, now)),
      Variation(invested, PrevTotalInvested(rows, initialInvestment, now)),
      invested,
      listIncome, listExpenses, listInvestments, listCurrentCard,
      listPendingIncome, listPendingExpenses, listPendingInvestments, listPlanningCard,
      SumBy(listIncome, Amount),
      SumBy(listExpenses, Amount),
      SumBy(listInvestments, NetInvestment),
      SumBy(listCurrentCard, Amount),
      SumBy(listPendingIncome, Amount),
      SumBy(listPendingExpenses, Amount),
      SumBy(listPendingInvestments, NetInvestment),
      SumBy(listPlanningCard, Amount))
  }

  /** A month list holds exactly the rows of its kind dated in the month of `now`. */
  lemma MonthListSpec(rows: seq<Transaction>, now: Date, kind: Transaction -> bool)
    ensures forall t :: t in MonthList(rows, now, kind) <==> t in rows && MonthIndex(t.date) == MonthIndex(now) && kind(t)
  {
    FilterMembership(rows, (t: Transaction) => InMonthOf(t, now));
    FilterMembership(Filter(rows, (t: Transaction) => InMonthOf(t, now)), kind);
  }

  /** A pending list holds exactly the rows of its kind dated strictly after now. */
  lemma PendingListSpec(rows: seq<Transaction>, now: Date, kind: Transaction -> bool)
    ensures forall t :: t in PendingList(rows, now, kind) <==> t in rows && Time(t.date) > Time(now) && kind(t)
  {
    FilterMembership(rows, (t: Transaction) => IsPending(t, now));
    FilterMembership(Filter(rows, (t: Transaction) => IsPending(t, now)), kind);
    forall t: Transaction ensures IsPending(t, now) <==> Time(t.date) > Time(now) {
      TimeOrder(now, t.date);
    }
  }

  /** With a valid closing day, the open statement holds exactly the card purchases whose
      statement is the current month's, the planning list exactly those of later statements;
      so no purchase is in both. */
  lemma CardListsSpec(rows: seq<Transaction>, now: Date, cd: int)
    requires ValidClosingDay(cd)
    ensures forall t :: (t in CurrentCardList(rows, now, cd))
                          <==> t in rows && IsCardExpense(t) && StatementIndex(t.date, cd) == MonthIndex(now)
    ensures forall t :: (t in PlanningCardList(rows, now, cd))
                          <==> t in rows && IsCardExpense(t) && StatementIndex(t.date, cd) > MonthIndex(now)
    ensures forall t :: t in CurrentCardList(rows, now, cd) ==> t !in PlanningCardList(rows, now, cd)
  {
    FilterMembership(rows, (t: Transaction) => InCurrentCard(t, now, cd));
    FilterMembership(rows, (t: Transaction) => InPlanningCard(t, now, cd));
    forall t: Transaction ensures InCurrentCard(t, now, cd) <==> IsCardExpense(t) && StatementIndex(t.date, cd) == MonthIndex(now) {
      StatementMembership(t.date, now.year, now.month, cd);
    }
    forall t: Transaction ensures InPlanningCard(t, now, cd) <==> IsCardExpense(t) && StatementIndex(t.date, cd) > MonthIndex(now) {
      AtOrAfterClosing(t.date, now.year, now.month, cd);
    }
  }

  /** Income or a withdrawal from investments, shown with a plus sign in the detail view. */
  predicate IsRevenue(t: Transaction)
  {
    t.ttype == Receita || (t.ttype == Investimento && t.isInvestmentWithdrawal)
  }

  function SignedAmount(t: Transaction): int
  {
    if IsRevenue(t) then t.amount else -t.amount
  }

  /** "Total no grupo" of the detail view: revenue adds, everything else subtracts. */
  function ModalTotal(list: seq<Transaction>): int
  {
    SumBy(list, SignedAmount)
  }

  /** The detail view of each card agrees with the card's figure: the income totals themselves,
      the expense and card totals negated, and for investments the net contribution negated. */
  lemma ModalTotalsAgree(rows: seq<Transaction>, totalBalance: int, cd: int, initialInvestment: int,
                         initialBalance: int, now: Date)
    ensures var r := ComputeDashboard(rows, totalBalance, cd, initialInvestment, initialBalance, now);
            && ModalTotal(r.listIncome) == r.monthIncome
            && ModalTotal(r.listExpenses) == -r.monthExpenses
            && ModalTotal(r.listInvestments) == -r.monthInvestments
            && ModalTotal(r.listCurrentCard) == -r.currentCardBill
            && ModalTotal(r.listPendingIncome) == r.pendingIncome
            && ModalTotal(r.listPendingExpenses) == -r.pendingExpenses
            && ModalTotal(r.listPendingInvestments) == -r.pendingInvestments
            && ModalTotal(r.listPlanningCard) == -r.planningCardBill
  {
    ModalTotalIncome(MonthList(rows, now, IsIncome));
    ModalTotalExpenses(MonthList(rows, now, IsPlainExpense));
    ModalTotalInvestments(MonthList(rows, now, IsInvestment));
    ModalTotalExpenses(CurrentCardList(rows, now, cd));
    ModalTotalIncome(PendingList(rows, now, IsIncome));
    ModalTotalExpenses(PendingList(rows, now, IsPlainExpense));
    ModalTotalInvestments(PendingList(rows, now, IsInvestment));
    ModalTotalExpenses(PlanningCardList(rows, now, cd));
  }

  lemma ModalTotalIncome(list: seq<Transaction>)
    requires forall i :: 0 <= i < |list| ==> list[i].ttype == Receita
    ensures ModalTotal(list) == SumBy(list, Amount)
  {
    SumByExt(list, SignedAmount, Amount);
  }

  lemma ModalTotalExpenses(list: seq<Transaction>)
    requires forall i :: 0 <= i < |list| ==> list[i].ttype == Despesa
    ensures ModalTotal(list) == -SumBy(list, Amount)
  {
    SumByNegate(list, Amount, SignedAmount);
  }

  lemma ModalTotalInvestments(list: seq<Transaction>)
    requires forall i :: 0 <= i < |list| ==> list[i].ttype == Investimento
    ensures ModalTotal(list) == -SumBy(list, NetInvestment)
  {
    SumByNegate(list, NetInvestment, SignedAmount);
  }

  function NegAmount(t: Transaction): int
  {
    -t.amount
  }

  predicate IsWithdrawal(t: Transaction)
  {
    t.isInvestmentWithdrawal
  }

  predicate IsContribution(t: Transaction)
  {
    !t.isInvestmentWithdrawal
  }

  /** The invested total is the initial investment plus the contributions minus the withdrawals
      made up to now. */
  lemma CurrentTotalInvestedSpec(rows: seq<Transaction>, initialInvestment: int, now: Date)
    ensures var s := Filter(rows, (t: Transaction) => IsInvestment(t) && AtOrBefore(t.date, now));
            CurrentTotalInvested(rows, initialInvestment, now)
              == initialInvestment + SumBy(Filter(s, IsContribution), Amount) - SumBy(Filter(s, IsWithdrawal), Amount)
  {
    var s := Filter(rows, (t: Transaction) => IsInvestment(t) && AtOrBefore(t.date, now));
    SumBySplit(s, IsWithdrawal, NegAmount, Amount, NetInvestment, IsContribution);
    SumByNegate(Filter(s, IsWithdrawal), Amount, NegAmount);
  }

  /** The previous-month totals count exactly the rows dated in an earlier month than `now`. */
  lemma PrevTotalsSpec(rows: seq<Transaction>, now: Date)
    ensures forall t :: (t in Filter(rows, (t: Transaction) => Before(t.date, MonthStartOf(now))))
                          <==> t in rows && MonthIndex(t.date) < MonthIndex(now)
    ensures forall t :: (t in Filter(rows, (t: Transaction) => IsInvestment(t) && Before(t.date, MonthStartOf(now))))
                          <==> t in rows && t.ttype == Investimento && MonthIndex(t.date) < MonthIndex(now)
  {
    FilterMembership(rows, (t: Transaction) => Before(t.date, MonthStartOf(now)));
    FilterMembership(rows, (t: Transaction) => IsInvestment(t) && Before(t.date, MonthStartOf(now)));
  }

  /** The cut-off as written excludes every moment of the previous month's last day after
      00:00, although such a moment lies in the previous month. */
  lemma PrevMonthEndAsWrittenMissesLastDay(d: Date, now: Date)
    requires MonthIndex(d) == MonthIndex(now) - 1 && d.day == MonthLength(MonthIndex(now) - 1) && d.sec > 0
    ensures !AtOrBefore(d, PrevMonthEndAsWritten(now))
    ensures Before(d, MonthStartOf(now))
  {
    PrevMonthEndPlace(now);
  }

  /** Away from that day the two cut-offs agree, so the totals as written equal the corrected
      ones whenever no row falls on the previous month's last day after midnight. */
  lemma PrevTotalsAgreeOffLastDay(rows: seq<Transaction>, initialBalance: int, initialInvestment: int, now: Date)
    requires forall t :: t in rows ==>
               !(MonthIndex(t.date) == MonthIndex(now) - 1 && t.date.day == MonthLength(MonthIndex(now) - 1) && t.date.sec > 0)
    ensures PrevTotalBalanceAsWritten(rows, initialBalance, now) == PrevTotalBalance(rows, initialBalance, now)
    ensures PrevTotalInvestedAsWritten(rows, initialInvestment, now) == PrevTotalInvested(rows, initialInvestment, now)
  {
    PrevMonthEndPlace(now);
    var e := PrevMonthEndAsWritten(now);
    var ms := MonthStartOf(now);
    forall t | t in rows ensures AtOrBefore(t.date, e) <==> Before(t.date, ms) {
      DayNumberInMonth(t.date);
    }
    FilterExt(rows, (t: Transaction) => AtOrBefore(t.date, e), (t: Transaction) => Before(t.date, ms));
    FilterExt(rows, (t: Transaction) => IsInvestment(t) && AtOrBefore(t.date, e),
                    (t: Transaction) => IsInvestment(t) && Before(t.date, ms));
  }

  /** An income of 100.00 received on 31 January 2025 at 10:00 is missing from the balance
      "at the end of January" that the dashboard shows on 10 February 2025, so the variation
      is measured against the wrong base. */
  lemma PrevTotalBalanceCounterexample()
    ensures var now := Civil(2025, 1, 10, 12 * 3600);
            var t := Transaction(1, Receita, "Salário", 10000, "salario", Civil(2025, 0, 31, 10 * 3600), "Pix",
                                 false, None, None, None, false, false);
            PrevTotalBalanceAsWritten([t], 0, now) == 0 && PrevTotalBalance([t], 0, now) == 10000
  {
    var now: Date := Civil(2025, 1, 10, 12 * 3600);
    var d: Date := Civil(2025, 0, 31, 10 * 3600);
    var t := Transaction(1, Receita, "Salário", 10000, "salario", d, "Pix",
                         false, None, None, None, false, false);
    PrevMonthEndAsWrittenMissesLastDay(d, now);
    assert Filter([t], (t: Transaction) => AtOrBefore(t.date, PrevMonthEndAsWritten(now))) == [];
    assert Filter([t], (t: Transaction) => Before(t.date, MonthStartOf(now))) == [t];
  }

  /** The variation is 0 without a base; otherwise its sign is the sign of the change. */
  lemma VariationSign(current: int, previous: int)
    ensures previous == 0 ==> Variation(current, previous) == 0.0
    ensures previous != 0 ==> (Variation(current, previous) > 0.0 <==> current > previous)
    ensures previous != 0 ==> (Variation(current, previous) == 0.0 <==> current == previous)
  {
    if previous != 0 {
      var q := (current - previous) as real / Abs(previous) as real;
      assert q * Abs(previous) as real == (current - previous) as real;
    }
  }

  /** Every list of the dashboard holds exactly the rows it names: the month's income, plain
      expenses and investments, this statement's card expenses, the pending rows of each kind,
      and the card expenses of later statements. */
  lemma ComputeDashboardLists(rows: seq<Transaction>, totalBalance: int, cd: int, initialInvestment: int,
                              initialBalance: int, now: Date)
    ensures var r := ComputeDashboard(rows, totalBalance, cd, initialInvestment, initialBalance, now);
      && (forall t :: t in r.listIncome <==> t in rows && MonthIndex(t.date) == MonthIndex(now) && t.ttype == Receita)
      && (forall t :: t in r.listExpenses <==> t in rows && MonthIndex(t.date) == MonthIndex(now) && IsPlainExpense(t))
      && (forall t :: t in r.listInvestments <==> t in rows && MonthIndex(t.date) == MonthIndex(now) && t.ttype == Investimento)
      && (forall t :: t in r.listPendingIncome <==> t in rows && Time(t.date) > Time(now) && t.ttype == Receita)
      && (forall t :: t in r.listPendingExpenses <==> t in rows && Time(t.date) > Time(now) && IsPlainExpense(t))
      && (forall t :: t in r.listPendingInvestments <==> t in rows && Time(t.date) > Time(now) && t.ttype == Investimento)
      && (ValidClosingDay(cd) ==>
            && (forall t :: (t in r.listCurrentCard)
                              <==> t in rows && IsCardExpense(t) && StatementIndex(t.date, cd) == MonthIndex(now))
            && (forall t :: (t in r.listPlanningCard)
                              <==> t in rows && IsCardExpense(t) && StatementIndex(t.date, cd) > MonthIndex(now)))
  {
    MonthListSpec(rows, now, IsIncome);
    MonthListSpec(rows, now, IsPlainExpense);
    MonthListSpec(rows, now, IsInvestment);
    PendingListSpec(rows, now, IsIncome);
    PendingListSpec(rows, now, IsPlainExpense);
    PendingListSpec(rows, now, IsInvestment);
    if ValidClosingDay(cd) {
      CardListsSpec(rows, now, cd);
    }
  }

  /** The figures of the dashboard: each card shows the sum of its list, the invested total is
      the initial investment plus the net investments up to now, and each variation compares the
      current figure with the same figure at the end of the previous month (every row dated
      before this month): zero without a previous figure, otherwise positive exactly when the
      figure grew. */
  lemma ComputeDashboardFigures(rows: seq<Transaction>, totalBalance: int, cd: int, initialInvestment: int,
                                initialBalance: int, now: Date)
    ensures var r := ComputeDashboard(rows, totalBalance, cd, initialInvestment, initialBalance, now);
      var prevBalance := PrevTotalBalance(rows, initialBalance, now);
      var prevInvested := PrevTotalInvested(rows, initialInvestment, now);
      && r.monthIncome == SumBy(r.listIncome, Amount)
      && r.monthExpenses == SumBy(r.listExpenses, Amount)
      && r.monthInvestments == SumBy(r.listInvestments, NetInvestment)
      && r.currentCardBill == SumBy(r.listCurrentCard, Amount)
      && r.pendingIncome == SumBy(r.listPendingIncome, Amount)
      && r.pendingExpenses == SumBy(r.listPendingExpenses, Amount)
      && r.pendingInvestments == SumBy(r.listPendingInvestments, NetInvestment)
      && r.planningCardBill == SumBy(r.listPlanningCard, Amount)
      && r.currentTotalInvested == CurrentTotalInvested(rows, initialInvestment, now)
      && (prevBalance == 0 ==> r.balanceVariation == 0.0)
      && (prevBalance != 0 ==> (r.balanceVariation > 0.0 <==> totalBalance > prevBalance))
      && (prevBalance != 0 ==> (r.balanceVariation == 0.0 <==> totalBalance == prevBalance))
      && (prevInvested == 0 ==> r.investmentVariation == 0.0)
      && (prevInvested != 0 ==> (r.investmentVariation > 0.0 <==> r.currentTotalInvested > prevInvested))
      && (prevInvested != 0 ==> (r.investmentVariation == 0.0 <==> r.currentTotalInvested == prevInvested))
  {
    var r := ComputeDashboard(rows, totalBalance, cd, initialInvestment, initialBalance, now);
    VariationSign(totalBalance, PrevTotalBalance(rows, initialBalance, now));
    VariationSign(r.currentTotalInvested, PrevTotalInvested(rows, initialInvestment, now));
  }
}
