/** Credit-card statements. A closing day `cd` (1 to 28) splits time into statements: the
    statement of month k runs from the closing moment of month k - 1 (day `cd`, 00:00) up to,
    but excluding, the closing moment of month k. Every screen that looks at card purchases
    applies this rule: the balance excludes what falls after the next closing, reports and the
    projection move late purchases to the following month, the entry form names the statement
    a purchase goes to, and the bill reconciliation sums one statement. */
module Billing {
  import opened Calendar
  import opened Model

  /** The closing days the settings screen accepts. */
  predicate ValidClosingDay(cd: int)
  {
    1 <= cd <= 28
  }

  const Noon: int := 12 * 3600

  /** `new Date(y, m, cd, 0, 0, 0)`: the closing moment of month `m` of year `y`. */
  function ClosingOf(y: int, m: int, cd: int): Date
  {
    MakeDate(y, m, cd, 0)
  }

  /** Month index of the statement a purchase made at `d` belongs to: this month's statement
      before the closing day, next month's from the closing day on. */
  function StatementIndex(d: Date, cd: int): int
  {
    if d.day < cd then MonthIndex(d) else MonthIndex(d) + 1
  }

  /** For a valid closing day, the closing moment is day `cd` of the named month at 00:00. */
  lemma ClosingIsCivil(y: int, m: int, cd: int)
    requires ValidClosingDay(cd)
    ensures var k := 12 * y + m;
            ClosingOf(y, m, cd) == Civil(k / 12, k % 12, cd, 0)
            && MonthIndex(ClosingOf(y, m, cd)) == k
  {
    var k := 12 * y + m;
    var c := Civil(k / 12, k % 12, cd, 0);
    assert MonthIndex(c) == k;
    DayNumberInjective(ClosingOf(y, m, cd), c);
  }

  /** A moment is at or after the closing of month `k` exactly when it lies in a later month,
      or in month `k` on or after the closing day. */
  lemma AtOrAfterClosing(d: Date, y: int, m: int, cd: int)
    requires ValidClosingDay(cd)
    ensures Time(d) >= Time(ClosingOf(y, m, cd)) <==>
            MonthIndex(d) > 12 * y + m || (MonthIndex(d) == 12 * y + m && d.day >= cd)
  {
    ClosingIsCivil(y, m, cd);
    TimeOrder(d, ClosingOf(y, m, cd));
  }

  /** `d` lies in the statement that closes in month `m` of year `y`. */
  predicate InStatement(d: Date, y: int, m: int, cd: int)
  {
    Time(ClosingOf(y, m - 1, cd)) <= Time(d) < Time(ClosingOf(y, m, cd))
  }

  /** The half-open statement windows partition time: a moment lies in the statement of month
      `12 * y + m` exactly when that is its statement index, so in one statement only. */
  lemma StatementMembership(d: Date, y: int, m: int, cd: int)
    requires ValidClosingDay(cd)
    ensures InStatement(d, y, m, cd) <==> StatementIndex(d, cd) == 12 * y + m
  {
    AtOrAfterClosing(d, y, m - 1, cd);
    AtOrAfterClosing(d, y, m, cd);
  }

  /** A statement window spans exactly one month: from day `cd` of one month to day `cd` of
      the next. */
  lemma StatementLength(y: int, m: int, cd: int)
    requires ValidClosingDay(cd)
    ensures DayNumber(ClosingOf(y, m, cd)) - DayNumber(ClosingOf(y, m - 1, cd)) == MonthLength(12 * y + m - 1)
  {
    MonthStartStep(12 * y + m - 1);
  }

  /** `nextClosingDate` of the balance: the closing of this month if today is before the closing
      day, otherwise the closing of next month. */
  function NextClosing(now: Date, cd: int): Date
  {
    if now.day < cd then ClosingOf(now.year, now.month, cd) else ClosingOf(now.year, now.month + 1, cd)
  }

  /** With a valid closing day, the next closing is strictly later than now, it closes the
      statement now belongs to, and no closing lies between now and it. */
  lemma NextClosingIsNext(now: Date, cd: int)
    requires ValidClosingDay(cd)
    ensures Time(NextClosing(now, cd)) > Time(now)
    ensures MonthIndex(NextClosing(now, cd)) == StatementIndex(now, cd)
    ensures forall y, m :: Time(ClosingOf(y, m, cd)) > Time(now) ==> Time(ClosingOf(y, m, cd)) >= Time(NextClosing(now, cd))
  {
    var next := NextClosing(now, cd);
    if now.day < cd {
      AtOrAfterClosing(now, now.year, now.month, cd);
      ClosingIsCivil(now.year, now.month, cd);
    } else {
      AtOrAfterClosing(now, now.year, now.month + 1, cd);
      ClosingIsCivil(now.year, now.month + 1, cd);
    }
    forall y, m | Time(ClosingOf(y, m, cd)) > Time(now) ensures Time(ClosingOf(y, m, cd)) >= Time(next) {
      AtOrAfterClosing(now, y, m, cd);
      ClosingIsCivil(y, m, cd);
      var c := ClosingOf(y, m, cd);
      AtOrAfterClosing(c, now.year, if now.day < cd then now.month else now.month + 1, cd);
    }
  }

  /** `getEffectiveDate`: a card purchase made on or after the closing day is reported on day 1
      of the following month at 12:00; every other transaction keeps its own date. */
  function EffectiveDate(t: Transaction, cd: int): Date
  {
    if IsCardExpense(t) && t.date.day >= cd then MakeDate(t.date.year, t.date.month + 1, 1, Noon) else t.date
  }

  /** The effective date of a card purchase lies in the month its statement closes in, and is
      never earlier than the purchase; a shifted date is the first day of that month at noon. */
  lemma EffectiveDateIsStatementMonth(t: Transaction, cd: int)
    requires ValidClosingDay(cd) && IsCardExpense(t)
    ensures MonthIndex(EffectiveDate(t, cd)) == StatementIndex(t.date, cd)
    ensures Time(EffectiveDate(t, cd)) >= Time(t.date)
    ensures EffectiveDate(t, cd) != t.date ==> EffectiveDate(t, cd).day == 1 && EffectiveDate(t, cd).sec == Noon
  {
    if t.date.day >= cd {
      var e := EffectiveDate(t, cd);
      var k := MonthIndex(t.date) + 1;
      MonthStartStep(k);
      MonthOfDayNumber(e, k);
      MonthIndexSplit(e.year, e.month);
      MonthOrder(t.date, e);
      TimeOrder(t.date, e);
    }
  }

  /** Everything that is not a card purchase keeps its date, and so does a card purchase made
      before the closing day. */
  lemma EffectiveDateUnshifted(t: Transaction, cd: int)
    ensures EffectiveDate(t, cd) == t.date <== !IsCardExpense(t) || t.date.day < cd
  {
  }
}
