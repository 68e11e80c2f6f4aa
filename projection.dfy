/** The month-by-month cash projection: one row per calendar month from the current one, with
    the month's income, expenses and net investment by effective date, and a running balance
    and invested total. */
module Projection {
  import opened Seqs
  import opened Calendar
  import opened Model
  import opened Billing
  import Dashboard

  /** The month (as a month index) a transaction is counted in: that of its effective date. */
  function EffMonth(t: Transaction, cd: int): int
  {
    MonthIndex(EffectiveDate(t, cd))
  }

  function EffMonthOf(cd: int): Transaction -> int
  {
    (t: Transaction) => EffMonth(t, cd)
  }

  /** Counted in month `k`. */
  function InMonth(monthOf: Transaction -> int, k: int): Transaction -> bool
  {
    (t: Transaction) => monthOf(t) == k
  }

  /** Counted in a month of `lo .. hi - 1`. */
  function InMonths(monthOf: Transaction -> int, lo: int, hi: int): Transaction -> bool
  {
    (t: Transaction) => lo <= monthOf(t) < hi
  }

  function OfType(tt: TransactionType): Transaction -> bool
  {
    (t: Transaction) => t.ttype == tt
  }

  /** Still to come this month: effective date in the month of `now` and later than `now`. */
  function IsFuture(cd: int, now: Date): Transaction -> bool
  {
    (t: Transaction) => EffMonth(t, cd) == MonthIndex(now) && Time(EffectiveDate(t, cd)) > Time(now)
  }

  /** Income, expenses and net investment (withdrawals negative) of some rows. */
  datatype MonthSums = MonthSums(receitas: int, despesas: int, investimentos: int)

  function SumsOf(s: seq<Transaction>): MonthSums
  {
    MonthSums(SumBy(Filter(s, OfType(Receita)), Amount),
              SumBy(Filter(s, OfType(Despesa)), Amount),
              SumBy(Filter(s, OfType(Investimento)), NetInvestment))
  }

  /** What a transaction does to the projected balance: income adds, an expense subtracts, and
      money put into investments leaves the balance (a withdrawal comes back). */
  function BalanceEffect(t: Transaction): int
  {
    match t.ttype
    case Receita => t.amount
    case Despesa => -t.amount
    case Investimento => -NetInvestment(t)
  }

  /** What a transaction does to the invested total. */
  function InvestEffect(t: Transaction): int
  {
    if t.ttype == Investimento then NetInvestment(t) else 0
  }

  function RevenueEffect(t: Transaction): int
  {
    if t.ttype == Receita then t.amount else 0
  }

  function ExpenseEffect(t: Transaction): int
  {
    if t.ttype == Despesa then t.amount else 0
  }

  function OutflowEffect(t: Transaction): int
  {
    ExpenseEffect(t) + InvestEffect(t)
  }

  function NegOutflowEffect(t: Transaction): int
  {
    -OutflowEffect(t)
  }

  /** Income minus expenses minus net investment of some rows is the sum of their balance
      effects, and their net investment the sum of their investment effects. */
  lemma SumsOfEffect(s: seq<Transaction>)
    ensures SumsOf(s).receitas - SumsOf(s).despesas - SumsOf(s).investimentos == SumBy(s, BalanceEffect)
    ensures SumsOf(s).investimentos == SumBy(s, InvestEffect)
  {
    SumByMask(s, OfType(Receita), Amount, RevenueEffect);
    SumByMask(s, OfType(Despesa), Amount, ExpenseEffect);
    SumByMask(s, OfType(Investimento), NetInvestment, InvestEffect);
    SumByLinear(s, ExpenseEffect, InvestEffect, OutflowEffect);
    SumByNegate(s, OutflowEffect, NegOutflowEffect);
    SumByLinear(s, RevenueEffect, NegOutflowEffect, BalanceEffect);
  }

  /** One row of the chart; `month` is the month index the row stands for (its label). */
  datatype MonthRow = MonthRow(month: int, receitas: int, despesas: int, investimentos: int,
                               saldo: int, investimentoAcumulado: int)

  /** The sums of the transactions counted in each month. */
  function MonthSumsOf(rows: seq<Transaction>, monthOf: Transaction -> int): int -> MonthSums
  {
    (k: int) => SumsOf(Filter(rows, InMonth(monthOf, k)))
  }

  /** Income minus expenses minus net investment. */
  function Net(m: MonthSums): int
  {
    m.receitas - m.despesas - m.investimentos
  }

  /** The first `n` rows of `projectionData`, with `k0` the current month, `sums` the sums of
      each month and `still` the sums of what is still to come this month: the first month
      starts from the current balance and invested total plus what is still to come; each later
      month adds its own income minus expenses minus net investment to the balance and its net
      investment to the invested total. */
  function ProjectionRows(totalBalance: int, totalInvested: int, k0: int, sums: int -> MonthSums, still: MonthSums, n: nat)
    : (r: seq<MonthRow>)
    ensures |r| == n
  {
    if n == 0 then []
    else
      var prev := ProjectionRows(totalBalance, totalInvested, k0, sums, still, n - 1);
      prev + [NextRow(prev, totalBalance, totalInvested, k0, sums, still)]
  }

  /** The row that follows the rows `prev`. */
  function NextRow(prev: seq<MonthRow>, totalBalance: int, totalInvested: int, k0: int, sums: int -> MonthSums, still: MonthSums)
    : MonthRow
  {
    var k := k0 + |prev|;
    var m := sums(k);
    if prev == [] then
      MonthRow(k, m.receitas, m.despesas, m.investimentos, totalBalance + Net(still), totalInvested + still.investimentos)
    else
      var last := prev[|prev| - 1];
      MonthRow(k, m.receitas, m.despesas, m.investimentos, last.saldo + Net(m), last.investimentoAcumulado + m.investimentos)
  }

  /** The `projectionData` loop over `months` months, where `sums(k)` is the filter of month
      `k` followed by its three `reduce`s and `still` those of what is still to come this month;
      a non-positive number of months gives no rows. */
  method ProjectMonths(totalBalance: int, totalInvested: int, k0: int, sums: int -> MonthSums, still: MonthSums, months: int)
    returns (data: seq<MonthRow>)
    ensures data == ProjectionRows(totalBalance, totalInvested, k0, sums, still, if months > 0 then months else 0)
  {
    var currentBalance := totalBalance;
    var currentInvested := totalInvested;
    data := [];
    var i := 0;
    while i < months
      invariant 0 <= i <= (if months > 0 then months else 0)
      invariant data == ProjectionRows(totalBalance, totalInvested, k0, sums, still, i)
      invariant i > 0 ==> currentBalance == data[i - 1].saldo && currentInvested == data[i - 1].investimentoAcumulado
    {
      var k := k0 + i;
      var month := sums(k);
      if i == 0 {
        currentBalance := totalBalance + still.receitas - still.despesas - still.investimentos;
        currentInvested := totalInvested + still.investimentos;
      } else {
        currentBalance := currentBalance + (month.receitas - month.despesas - month.investimentos);
        currentInvested := currentInvested + month.investimentos;
      }
      data := data + [MonthRow(k, month.receitas, month.despesas, month.investimentos, currentBalance, currentInvested)];
      i := i + 1;
    }
  }

  /** `projectionData` for the month of `now`, with the card rule of the effective date. The
      invested total starts from `currentTotalInvested`: the initial investment plus the net
      investment rows dated up to now, the same figure the dashboard shows. */
  method Project(rows: seq<Transaction>, totalBalance: int, initialInvestment: int, cd: int, now: Date, months: int)
    returns (data: seq<MonthRow>)
    ensures data == ProjectionRows(totalBalance, Dashboard.CurrentTotalInvested(rows, initialInvestment, now),
                                   MonthIndex(now), MonthSumsOf(rows, EffMonthOf(cd)),
                                   SumsOf(Filter(rows, IsFuture(cd, now))), if months > 0 then months else 0)
    ensures months > 0 ==>
              data[0].investimentoAcumulado
                == Dashboard.CurrentTotalInvested(rows, initialInvestment, now)
                   + SumBy(Filter(rows, IsFuture(cd, now)), InvestEffect)
  {
    var currentTotalInvested := Dashboard.CurrentTotalInvested(rows, initialInvestment, now);
    data := ProjectMonths(totalBalance, currentTotalInvested, MonthIndex(now), MonthSumsOf(rows, EffMonthOf(cd)),
                          SumsOf(Filter(rows, IsFuture(cd, now))), months);
    if months > 0 {
      StartInvested(totalBalance, currentTotalInvested, MonthIndex(now), MonthSumsOf(rows, EffMonthOf(cd)),
                    Filter(rows, IsFuture(cd, now)), months);
    }
  }

  /** The first row's invested total is the starting one plus what is still to come in the
      current month. */
  lemma StartInvested(totalBalance: int, totalInvested: int, k0: int, sums: int -> MonthSums, still: seq<Transaction>, n: nat)
    requires n > 0
    ensures ProjectionRows(totalBalance, totalInvested, k0, sums, SumsOf(still), n)[0].investimentoAcumulado
              == totalInvested + SumBy(still, InvestEffect)
  {
    ProjectionRowsSpec(totalBalance, totalInvested, k0, sums, SumsOf(still), n);
    SumsOfEffect(still);
  }

  /** The net of the months `lo .. hi - 1`. */
  function NetOver(sums: int -> MonthSums, lo: int, hi: int): int
    decreases hi - lo
  {
    if hi <= lo then 0 else NetOver(sums, lo, hi - 1) + Net(sums(hi - 1))
  }

  /** The net investment of the months `lo .. hi - 1`. */
  function InvestedOver(sums: int -> MonthSums, lo: int, hi: int): int
    decreases hi - lo
  {
    if hi <= lo then 0 else InvestedOver(sums, lo, hi - 1) + sums(hi - 1).investimentos
  }

  /** Row `i` stands for month `k0 + i` and shows that month's sums; its balance is the current
      balance plus what is still to come this month plus the net of the months after the
      current one up to row `i`, and likewise for the invested total. */
  lemma {:induction false} ProjectionRowsSpec(totalBalance: int, totalInvested: int, k0: int, sums: int -> MonthSums, still: MonthSums, n: nat)
    ensures var r := ProjectionRows(totalBalance, totalInvested, k0, sums, still, n);
            forall i :: 0 <= i < n ==>
              && r[i].month == k0 + i
              && MonthSums(r[i].receitas, r[i].despesas, r[i].investimentos) == sums(k0 + i)
              && r[i].saldo == totalBalance + Net(still) + NetOver(sums, k0 + 1, k0 + i + 1)
              && r[i].investimentoAcumulado == totalInvested + still.investimentos + InvestedOver(sums, k0 + 1, k0 + i + 1)
  {
    if n > 0 {
      ProjectionRowsSpec(totalBalance, totalInvested, k0, sums, still, n - 1);
      var r := ProjectionRows(totalBalance, totalInvested, k0, sums, still, n);
      assert r[..n - 1] == ProjectionRows(totalBalance, totalInvested, k0, sums, still, n - 1);
    }
  }

  /** `sums` gives, for every month, the net and the net investment of the transactions counted
      in that month. */
  ghost predicate SumsAgree(rows: seq<Transaction>, monthOf: Transaction -> int, sums: int -> MonthSums)
  {
    forall k {:trigger InMonth(monthOf, k)} :: Net(sums(k)) == SumBy(Filter(rows, InMonth(monthOf, k)), BalanceEffect)
                && sums(k).investimentos == SumBy(Filter(rows, InMonth(monthOf, k)), InvestEffect)
  }

  /** `still` holds the net and the net investment of the rows satisfying `future`. */
  ghost predicate StillAgrees(rows: seq<Transaction>, future: Transaction -> bool, still: MonthSums)
  {
    Net(still) == SumBy(Filter(rows, future), BalanceEffect)
    && still.investimentos == SumBy(Filter(rows, future), InvestEffect)
  }

  /** The filter-and-reduce of each month agrees with the transactions counted in it, and that
      of the rows still to come with those rows. */
  lemma MonthSumsAgree(rows: seq<Transaction>, monthOf: Transaction -> int, future: Transaction -> bool)
    ensures SumsAgree(rows, monthOf, MonthSumsOf(rows, monthOf))
    ensures StillAgrees(rows, future, SumsOf(Filter(rows, future)))
  {
    AllMonthsAgree(rows, monthOf);
    SumsOfEffect(Filter(rows, future));
  }

  lemma AllMonthsAgree(rows: seq<Transaction>, monthOf: Transaction -> int)
    ensures SumsAgree(rows, monthOf, MonthSumsOf(rows, monthOf))
  {
    forall k
      ensures Net(MonthSumsOf(rows, monthOf)(k)) == SumBy(Filter(rows, InMonth(monthOf, k)), BalanceEffect)
      ensures MonthSumsOf(rows, monthOf)(k).investimentos == SumBy(Filter(rows, InMonth(monthOf, k)), InvestEffect)
    {
      MonthAgrees(rows, monthOf, k);
    }
  }

  lemma MonthAgrees(rows: seq<Transaction>, monthOf: Transaction -> int, k: int)
    ensures Net(MonthSumsOf(rows, monthOf)(k)) == SumBy(Filter(rows, InMonth(monthOf, k)), BalanceEffect)
    ensures MonthSumsOf(rows, monthOf)(k).investimentos == SumBy(Filter(rows, InMonth(monthOf, k)), InvestEffect)
  {
    var s := Filter(rows, InMonth(monthOf, k));
    assert MonthSumsOf(rows, monthOf)(k) == SumsOf(s);
    SumsOfEffect(s);
  }

  /** The net of a range of months is the balance effect of every transaction counted in one of
      them. */
  lemma {:induction false} NetOverEffect(rows: seq<Transaction>, monthOf: Transaction -> int, sums: int -> MonthSums, lo: int, hi: int)
    requires SumsAgree(rows, monthOf, sums)
    ensures NetOver(sums, lo, hi) == SumBy(Filter(rows, InMonths(monthOf, lo, hi)), BalanceEffect)
    decreases hi - lo
  {
    if hi <= lo {
      FilterNone(rows, InMonths(monthOf, lo, hi));
    } else {
      NetOverEffect(rows, monthOf, sums, lo, hi - 1);
      SumByFilterUnion(rows, InMonths(monthOf, lo, hi), InMonths(monthOf, lo, hi - 1), InMonth(monthOf, hi - 1), BalanceEffect);
    }
  }

  /** The net investment of a range of months is the investment effect of every transaction
      counted in one of them. */
  lemma {:induction false} InvestedOverEffect(rows: seq<Transaction>, monthOf: Transaction -> int, sums: int -> MonthSums, lo: int, hi: int)
    requires SumsAgree(rows, monthOf, sums)
    ensures InvestedOver(sums, lo, hi) == SumBy(Filter(rows, InMonths(monthOf, lo, hi)), InvestEffect)
    decreases hi - lo
  {
    if hi <= lo {
      FilterNone(rows, InMonths(monthOf, lo, hi));
    } else {
      InvestedOverEffect(rows, monthOf, sums, lo, hi - 1);
      SumByFilterUnion(rows, InMonths(monthOf, lo, hi), InMonths(monthOf, lo, hi - 1), InMonth(monthOf, hi - 1), InvestEffect);
    }
  }

  /** Both sums of a range of months in terms of the transactions counted in it. */
  lemma PeriodEffects(rows: seq<Transaction>, monthOf: Transaction -> int, sums: int -> MonthSums, lo: int, hi: int)
    requires SumsAgree(rows, monthOf, sums)
    ensures NetOver(sums, lo, hi) == SumBy(Filter(rows, InMonths(monthOf, lo, hi)), BalanceEffect)
    ensures InvestedOver(sums, lo, hi) == SumBy(Filter(rows, InMonths(monthOf, lo, hi)), InvestEffect)
  {
    NetOverEffect(rows, monthOf, sums, lo, hi);
    InvestedOverEffect(rows, monthOf, sums, lo, hi);
  }

  /** Row `i` of the projection in terms of the transactions, for `monthOf` the month a
      transaction is counted in (`EffMonthOf(cd)` in `Project`), `future` what is still to come
      (`IsFuture(cd, now)`) and month sums that agree with them (`MonthSumsAgree`): row `i`
      stands for month `k0 + i`, a transaction contributes to it exactly when it is counted in
      that month, and its balance is the current balance plus the balance effect of what is
      still to come this month and of every transaction counted in the months after the current
      one up to row `i`; likewise for the invested total. */
  lemma ProjectionSpec(rows: seq<Transaction>, totalBalance: int, totalInvested: int, k0: int, monthOf: Transaction -> int,
                       future: Transaction -> bool, sums: int -> MonthSums, still: MonthSums, n: nat, i: nat)
    requires SumsAgree(rows, monthOf, sums) && StillAgrees(rows, future, still)
    requires i < n
    ensures var r := ProjectionRows(totalBalance, totalInvested, k0, sums, still, n);
            && r[i].month == k0 + i
            && r[i].receitas - r[i].despesas - r[i].investimentos == SumBy(Filter(rows, InMonth(monthOf, k0 + i)), BalanceEffect)
            && r[i].saldo == totalBalance + SumBy(Filter(rows, future), BalanceEffect)
                             + SumBy(Filter(rows, InMonths(monthOf, k0 + 1, k0 + i + 1)), BalanceEffect)
            && r[i].investimentoAcumulado == totalInvested + SumBy(Filter(rows, future), InvestEffect)
                                             + SumBy(Filter(rows, InMonths(monthOf, k0 + 1, k0 + i + 1)), InvestEffect)
  {
    ProjectionRow(totalBalance, totalInvested, k0, sums, still, n, i);
    PeriodEffects(rows, monthOf, sums, k0 + 1, k0 + i + 1);
    var m := sums(k0 + i);
    assert Net(m) == SumBy(Filter(rows, InMonth(monthOf, k0 + i)), BalanceEffect);
  }

  /** Row `i` of `ProjectionRowsSpec`. */
  lemma ProjectionRow(totalBalance: int, totalInvested: int, k0: int, sums: int -> MonthSums, still: MonthSums, n: nat, i: nat)
    requires i < n
    ensures var r := ProjectionRows(totalBalance, totalInvested, k0, sums, still, n);
            && r[i].month == k0 + i
            && MonthSums(r[i].receitas, r[i].despesas, r[i].investimentos) == sums(k0 + i)
            && r[i].saldo == totalBalance + Net(still) + NetOver(sums, k0 + 1, k0 + i + 1)
            && r[i].investimentoAcumulado == totalInvested + still.investimentos + InvestedOver(sums, k0 + 1, k0 + i + 1)
  {
    ProjectionRowsSpec(totalBalance, totalInvested, k0, sums, still, n);
  }

  function RowReceitas(r: MonthRow): int
  {
    r.receitas
  }

  function RowDespesas(r: MonthRow): int
  {
    r.despesas
  }

  function RowInvestimentos(r: MonthRow): int
  {
    r.investimentos
  }

  datatype ProjectionTotals = ProjectionTotals(receitas: int, despesas: int, investimentos: int, saldo: int,
                                               investimentoTotalProjetado: int, balanceOnPeriod: int)

  /** The totals under the chart: column sums, the last row's balance and invested total
      (falling back to the current ones when there is no row or the value is 0), and the
      period's income minus expenses minus net investment. */
  function TotalsOf(data: seq<MonthRow>, totalBalance: int, totalInvested: int): ProjectionTotals
  {
    var receitas := SumBy(data, RowReceitas);
    var despesas := SumBy(data, RowDespesas);
    var investimentos := SumBy(data, RowInvestimentos);
    ProjectionTotals(receitas, despesas, investimentos,
                     if |data| > 0 && data[|data| - 1].saldo != 0 then data[|data| - 1].saldo else totalBalance,
                     if |data| > 0 && data[|data| - 1].investimentoAcumulado != 0 then data[|data| - 1].investimentoAcumulado
                     else totalInvested,
                     receitas - despesas - investimentos)
  }

  /** The period balance is the net of all projected months, and the invested column total
      their net investment. */
  lemma {:induction false} ProjectionColumnTotals(totalBalance: int, totalInvested: int, k0: int, sums: int -> MonthSums, still: MonthSums, n: nat)
    ensures var t := TotalsOf(ProjectionRows(totalBalance, totalInvested, k0, sums, still, n), totalBalance, totalInvested);
            && t.balanceOnPeriod == NetOver(sums, k0, k0 + n)
            && t.investimentos == InvestedOver(sums, k0, k0 + n)
  {
    if n > 0 {
      ProjectionColumnTotals(totalBalance, totalInvested, k0, sums, still, n - 1);
      var r := ProjectionRows(totalBalance, totalInvested, k0, sums, still, n);
      assert r[..n - 1] == ProjectionRows(totalBalance, totalInvested, k0, sums, still, n - 1);
    }
  }

  /** The projected totals in terms of the transactions: the period balance is the balance
      effect of every transaction counted in the projected months, and the invested column
      total their investment effect. */
  lemma ProjectionTotalsSpec(rows: seq<Transaction>, totalBalance: int, totalInvested: int, k0: int, monthOf: Transaction -> int,
                             sums: int -> MonthSums, still: MonthSums, n: nat)
    requires SumsAgree(rows, monthOf, sums)
    ensures var t := TotalsOf(ProjectionRows(totalBalance, totalInvested, k0, sums, still, n), totalBalance, totalInvested);
            && t.balanceOnPeriod == SumBy(Filter(rows, InMonths(monthOf, k0, k0 + n)), BalanceEffect)
            && t.investimentos == SumBy(Filter(rows, InMonths(monthOf, k0, k0 + n)), InvestEffect)
  {
    ProjectionColumnTotals(totalBalance, totalInvested, k0, sums, still, n);
    PeriodEffects(rows, monthOf, sums, k0, k0 + n);
  }

  /** The projected final balance is the balance of the last month, unless there is no month or
      that balance is 0, when it is the current balance; the same holds for the invested total. */
  lemma ProjectionFinalSpec(totalBalance: int, totalInvested: int, k0: int, sums: int -> MonthSums, still: MonthSums, n: nat)
    ensures var t := TotalsOf(ProjectionRows(totalBalance, totalInvested, k0, sums, still, n), totalBalance, totalInvested);
            var closed := totalBalance + Net(still) + NetOver(sums, k0 + 1, k0 + n);
            var invested := totalInvested + still.investimentos + InvestedOver(sums, k0 + 1, k0 + n);
            && t.saldo == (if n > 0 && closed != 0 then closed else totalBalance)
            && t.investimentoTotalProjetado == (if n > 0 && invested != 0 then invested else totalInvested)
  {
    ProjectionRowsSpec(totalBalance, totalInvested, k0, sums, still, n);
  }
}
