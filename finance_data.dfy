/** The finance store: the user's tables held in memory, the operations that change them, and
    the available balance. Remote inserts, updates and deletes become updates of the row
    sequences; a fresh row id is the store's next counter value, and the id shared by the
    rows of one recurring series is a parameter. */
module FinanceData {
  import opened Wrappers
  import opened Seqs
  import opened Text
  import opened Calendar
  import opened Model
  import opened Billing

  // ---------------------------------------------------------------------------------------
  // Recurrence expansion

  /** The month after month `m` of year `y`. */
  function NextMonth(y: int, m: int): (int, int)
  {
    if m == 11 then (y + 1, 0) else (y, m + 1)
  }

  /** `setDate(getDate() + n)` for a step of at most 28 days: the day moves on, into the next
      month when it passes the end of this one. */
  function AddDays(d: Date, n: int): Date
    requires 1 <= n <= 28
  {
    var len := DaysInMonth(d.year, d.month);
    if d.day + n <= len then Civil(d.year, d.month, d.day + n, d.sec)
    else
      var (y, m) := NextMonth(d.year, d.month);
      Civil(y, m, d.day + n - len, d.sec)
  }

  /** `setMonth(getMonth() + 1)`: the same day of the next month, moved into the month after
      when that month is shorter. */
  function AddMonth(d: Date): Date
  {
    var (y, m) := NextMonth(d.year, d.month);
    var len := DaysInMonth(y, m);
    if d.day <= len then Civil(y, m, d.day, d.sec)
    else
      var (y2, m2) := NextMonth(y, m);
      Civil(y2, m2, d.day - len, d.sec)
  }

  /** One repetition later: a day, a week or a month, keeping the time of day. */
  function Step(d: Date, f: Frequency): Date
  {
    match f
    case Diaria => AddDays(d, 1)
    case Semanal => AddDays(d, 7)
    case Mensal => AddMonth(d)
  }

  lemma NextMonthIndex(y: int, m: int)
    requires 0 <= m < 12
    ensures var (y', m') := NextMonth(y, m); 12 * y' + m' == 12 * y + m + 1 && 0 <= m' < 12
  {
  }

  /** A step is a later moment. */
  lemma StepLater(d: Date, f: Frequency)
    ensures Before(d, Step(d, f))
  {
  }

  /** Adding days within the step bound is `new Date(y, m, d + n)`: the day number grows by `n`. */
  lemma AddDaysIsMakeDate(d: Date, n: int)
    requires 1 <= n <= 28
    ensures AddDays(d, n) == MakeDate(d.year, d.month, d.day + n, d.sec)
    ensures DayNumber(AddDays(d, n)) == DayNumber(d) + n
  {
    var k := MonthIndex(d);
    MonthIndexSplit(d.year, d.month);
    NextMonthIndex(d.year, d.month);
    MonthStartStep(k);
    var target := MakeDate(d.year, d.month, d.day + n, d.sec);
    DayNumberInjective(AddDays(d, n), target);
  }

  /** Adding a month is `new Date(y, m + 1, d)`: the day number grows by the length of the
      current month, so that a day past the end of the next month overflows into the month after. */
  lemma AddMonthIsMakeDate(d: Date)
    ensures AddMonth(d) == MakeDate(d.year, d.month + 1, d.day, d.sec)
    ensures DayNumber(AddMonth(d)) == DayNumber(d) + MonthLength(MonthIndex(d))
  {
    AddMonthDayNumber(d);
    var target := MakeDate(d.year, d.month + 1, d.day, d.sec);
    assert 12 * d.year + (d.month + 1) == MonthIndex(d) + 1;
    MonthStartStep(MonthIndex(d));
    DayNumberInjective(AddMonth(d), target);
  }

  lemma AddMonthDayNumber(d: Date)
    ensures DayNumber(AddMonth(d)) == DayNumber(d) + MonthLength(MonthIndex(d))
  {
    var k := MonthIndex(d);
    var (y1, m1) := NextMonth(d.year, d.month);
    NextMonthIndex(d.year, d.month);
    MonthStartStep(k);
    if d.day > DaysInMonth(y1, m1) {
      NextMonthIndex(y1, m1);
      MonthIndexSplit(y1, m1);
      MonthStartStep(k + 1);
    }
  }

  /** The most rows one expansion inserts before the length check stops it is one more than this. */
  const RowCap: nat := 500

  /** The dates the expansion loop pushes, starting from `cur` after `pushed` rows: stop when
      past the end, after one row when the frequency is unknown, and once the row count
      exceeds the cap. */
  function SeriesFrom(cur: Date, end: Date, f: Option<Frequency>, pushed: nat): seq<Date>
    requires pushed <= RowCap
    decreases RowCap - pushed
  {
    if Before(end, cur) then []
    else if f.None? || pushed + 1 > RowCap then [cur]
    else [cur] + SeriesFrom(Step(cur, f.value), end, f, pushed + 1)
  }

  /** The dates of the rows a recurring transaction expands into. */
  function RecurrenceDates(start: Date, end: Date, f: Option<Frequency>): seq<Date>
  {
    SeriesFrom(start, end, f, 0)
  }

  /** Past the end date the loop pushes nothing. */
  lemma SeriesFromPast(cur: Date, end: Date, f: Option<Frequency>, pushed: nat)
    requires pushed <= RowCap && Before(end, cur)
    ensures SeriesFrom(cur, end, f, pushed) == []
  {
  }


  /** Up to the end date the loop pushes the current date, then stops or goes on one step later. */
  lemma SeriesFromPush(cur: Date, end: Date, f: Option<Frequency>, pushed: nat)
    requires pushed <= RowCap && AtOrBefore(cur, end)
    ensures f.None? || pushed + 1 > RowCap ==> SeriesFrom(cur, end, f, pushed) == [cur]
    ensures f.Some? && pushed + 1 <= RowCap ==>
            SeriesFrom(cur, end, f, pushed) == [cur] + SeriesFrom(Step(cur, f.value), end, f, pushed + 1)
  {
  }

  /** Pushing the current date keeps the loop's dates a prefix of the expansion. */
  lemma PushPreserves(dates: seq<Date>, cur: Date, end: Date, f: Option<Frequency>, all: seq<Date>)
    requires |dates| <= RowCap && AtOrBefore(cur, end)
    requires dates + SeriesFrom(cur, end, f, |dates|) == all
    ensures f.None? || |dates| + 1 > RowCap ==> dates + [cur] == all
    ensures f.Some? && |dates| + 1 <= RowCap ==>
            (dates + [cur]) + SeriesFrom(Step(cur, f.value), end, f, |dates| + 1) == all
  {
    SeriesFromPush(cur, end, f, |dates|);
    if f.Some? && |dates| + 1 <= RowCap {
      var rest := SeriesFrom(Step(cur, f.value), end, f, |dates| + 1);
      assert dates + ([cur] + rest) == (dates + [cur]) + rest;
    }
  }

  /** The `while (currentDate <= endDate)` loop of `addTransaction`, collecting the dates it pushes. */
  method ExpandDates(start: Date, end: Date, f: Option<Frequency>) returns (dates: seq<Date>)
    ensures dates == RecurrenceDates(start, end, f)
  {
    ghost var all := RecurrenceDates(start, end, f);
    dates := [];
    var current := start;
    while AtOrBefore(current, end)
      invariant |dates| <= RowCap
      invariant dates + SeriesFrom(current, end, f, |dates|) == all
      decreases RowCap - |dates|
    {
      PushPreserves(dates, current, end, f, all);
      dates := dates + [current];
      if f.None? || |dates| > RowCap {
        return;
      }
      current := Step(current, f.value);
    }
    SeriesFromPast(current, end, f, |dates|);
  }

  /** Date `i` of a series is one step after date `i - 1`. */
  predicate StepsFrom(r: seq<Date>, i: int, f: Option<Frequency>)
    requires 1 <= i < |r|
  {
    f.Some? && r[i] == Step(r[i - 1], f.value)
  }

  /** The length, the first date, and the case of an unknown frequency. */
  lemma {:induction false} SeriesFromHead(cur: Date, end: Date, f: Option<Frequency>, pushed: nat)
    requires pushed <= RowCap
    ensures var r := SeriesFrom(cur, end, f, pushed);
      && |r| <= RowCap + 1 - pushed
      && (r != [] <==> AtOrBefore(cur, end))
      && (r != [] ==> r[0] == cur)
      && (f.None? ==> |r| <= 1)
    decreases RowCap - pushed
  {
    if AtOrBefore(cur, end) && f.Some? && pushed + 1 <= RowCap {
      SeriesFromHead(Step(cur, f.value), end, f, pushed + 1);
    }
  }

  /** Every date of the series lies between its start and the end date. */
  lemma {:induction false} SeriesFromBounds(cur: Date, end: Date, f: Option<Frequency>, pushed: nat)
    requires pushed <= RowCap
    ensures forall i :: 0 <= i < |SeriesFrom(cur, end, f, pushed)| ==>
              AtOrBefore(SeriesFrom(cur, end, f, pushed)[i], end) && AtOrBefore(cur, SeriesFrom(cur, end, f, pushed)[i])
    decreases RowCap - pushed
  {
    if AtOrBefore(cur, end) && f.Some? && pushed + 1 <= RowCap {
      var next := Step(cur, f.value);
      StepLater(cur, f.value);
      SeriesFromBounds(next, end, f, pushed + 1);
      var r, rest := SeriesFrom(cur, end, f, pushed), SeriesFrom(next, end, f, pushed + 1);
      assert r == [cur] + rest;
      forall i | 1 <= i < |r| ensures AtOrBefore(r[i], end) && AtOrBefore(cur, r[i]) {
        assert r[i] == rest[i - 1];
        AtOrBeforeTotal(cur, next, r[i]);
      }
    }
  }

  /** Each date after the first is one step after the one before it. */
  lemma {:induction false} SeriesFromSteps(cur: Date, end: Date, f: Option<Frequency>, pushed: nat)
    requires pushed <= RowCap
    ensures var r := SeriesFrom(cur, end, f, pushed);
      forall i :: 1 <= i < |r| ==> StepsFrom(r, i, f)
    decreases RowCap - pushed
  {
    if AtOrBefore(cur, end) && f.Some? && pushed + 1 <= RowCap {
      var next := Step(cur, f.value);
      SeriesFromSteps(next, end, f, pushed + 1);
      SeriesFromHead(next, end, f, pushed + 1);
      var r, rest := SeriesFrom(cur, end, f, pushed), SeriesFrom(next, end, f, pushed + 1);
      assert r == [cur] + rest;
      forall i | 1 <= i < |r| ensures StepsFrom(r, i, f) {
        if i > 1 {
          assert StepsFrom(rest, i - 1, f);
          assert r[i] == rest[i - 1] && r[i - 1] == rest[i - 2];
        }
      }
    }
  }

  /** A series shorter than the cap with a known frequency stops because the next step passes
      the end date. */
  lemma {:induction false} SeriesFromStops(cur: Date, end: Date, f: Option<Frequency>, pushed: nat)
    requires pushed <= RowCap
    ensures var r := SeriesFrom(cur, end, f, pushed);
      r != [] && |r| < RowCap + 1 - pushed && f.Some? ==> Before(end, Step(r[|r| - 1], f.value))
    decreases RowCap - pushed
  {
    if AtOrBefore(cur, end) && f.Some? && pushed + 1 <= RowCap {
      var next := Step(cur, f.value);
      SeriesFromStops(next, end, f, pushed + 1);
      var r, rest := SeriesFrom(cur, end, f, pushed), SeriesFrom(next, end, f, pushed + 1);
      assert r == [cur] + rest;
      if rest != [] {
        assert r[|r| - 1] == rest[|rest| - 1];
      }
    }
  }

  /** What a recurring expansion produces: at most 501 dates; none when the start is after the
      end; otherwise the first is the start, each next one is one step later, all are at most
      the end, and the series stops early only because the next step would pass the end. An
      unknown frequency gives a single date. */
  lemma RecurrenceDatesSpec(start: Date, end: Date, f: Option<Frequency>)
    ensures var r := RecurrenceDates(start, end, f);
      && |r| <= RowCap + 1
      && (r == [] <==> Before(end, start))
      && (r != [] ==> r[0] == start)
      && (f.None? && AtOrBefore(start, end) ==> |r| == 1)
      && (forall i :: 0 <= i < |r| ==> AtOrBefore(r[i], end))
      && (forall i :: 1 <= i < |r| ==> StepsFrom(r, i, f))
      && (r != [] && |r| <= RowCap && f.Some? ==> Before(end, Step(r[|r| - 1], f.value)))
  {
    SeriesFromHead(start, end, f, 0);
    SeriesFromBounds(start, end, f, 0);
    SeriesFromSteps(start, end, f, 0);
    SeriesFromStops(start, end, f, 0);
  }

  /** The dates of an expansion strictly increase. */
  lemma {:induction false} RecurrenceDatesIncreasing(start: Date, end: Date, f: Option<Frequency>)
    ensures var r := RecurrenceDates(start, end, f);
            forall i, j :: 0 <= i < j < |r| ==> Before(r[i], r[j])
  {
    var r := RecurrenceDates(start, end, f);
    RecurrenceDatesSpec(start, end, f);
    forall i, j | 0 <= i < j < |r| ensures Before(r[i], r[j]) {
      StepChainIncreasing(r, f, i, j);
    }
  }

  lemma {:induction false} StepChainIncreasing(r: seq<Date>, f: Option<Frequency>, i: int, j: int)
    requires 0 <= i < j < |r|
    requires forall k :: 1 <= k < |r| ==> StepsFrom(r, k, f)
    ensures Before(r[i], r[j])
    decreases j - i
  {
    assert StepsFrom(r, j, f);
    StepLater(r[j - 1], f.value);
    if j > i + 1 {
      StepChainIncreasing(r, f, i, j - 1);
    }
  }

  /** A row of a recurring series: the form's fields with one date of the series. */
  function SeriesRow(tx: NewTransaction, rid: nat, date: Date, id: nat): Transaction
  {
    Transaction(id, tx.ttype, tx.description, tx.amount, tx.categoryId, date, tx.paymentMethod,
      true, tx.frequency, tx.endDate, Some(rid), tx.isCardBillPayment, tx.isInvestmentWithdrawal)
  }

  /** The one row of a transaction that is not expanded: its own date, not recurring, no series. */
  function SingleRow(tx: NewTransaction, id: nat): Transaction
  {
    Transaction(id, tx.ttype, tx.description, tx.amount, tx.categoryId, tx.date, tx.paymentMethod,
      false, None, None, None, tx.isCardBillPayment, tx.isInvestmentWithdrawal)
  }

  /** The rows of a recurring series, one per date, numbered from `firstId`. */
  function SeriesRows(tx: NewTransaction, rid: nat, dates: seq<Date>, firstId: nat): (rows: seq<Transaction>)
    ensures |rows| == |dates|
  {
    seq(|dates|, i requires 0 <= i < |dates| => SeriesRow(tx, rid, dates[i], firstId + i))
  }

  /** Two rows differ only in their id and date. */
  predicate SameButIdAndDate(a: Transaction, b: Transaction)
  {
    a.(id := 0, date := Civil(1970, 0, 1, 0)) == b.(id := 0, date := Civil(1970, 0, 1, 0))
  }

  /** The rows of a series carry consecutive ids and the series' dates in order, and share
      every other field: the form's fields, `isRecurring`, the series id, the end date and the
      frequency. */
  lemma SeriesRowsSpec(tx: NewTransaction, rid: nat, dates: seq<Date>, firstId: nat)
    ensures var rows := SeriesRows(tx, rid, dates, firstId);
      && (forall i :: 0 <= i < |rows| ==> rows[i].id == firstId + i && rows[i].date == dates[i])
      && (forall i :: 0 <= i < |rows| ==>
            rows[i].isRecurring && rows[i].recurringId == Some(rid) && rows[i].endDate == tx.endDate
            && rows[i].frequency == tx.frequency && rows[i].amount == tx.amount && rows[i].ttype == tx.ttype
            && rows[i].description == tx.description && rows[i].categoryId == tx.categoryId
            && rows[i].paymentMethod == tx.paymentMethod)
      && (forall i, j :: 0 <= i < |rows| && 0 <= j < |rows| ==> SameButIdAndDate(rows[i], rows[j]))
  {
  }

  /** The rows `addTransaction` inserts, numbered from `firstId`: the expanded series when the
      transaction is recurring and has an end date, otherwise one row. */
  function NewRows(tx: NewTransaction, rid: nat, firstId: nat): seq<Transaction>
  {
    if tx.isRecurring && tx.endDate.Some? then
      SeriesRows(tx, rid, RecurrenceDates(tx.date, tx.endDate.value, tx.frequency), firstId)
    else [SingleRow(tx, firstId)]
  }

  /** A transaction that is not recurring, or recurring without an end date, becomes exactly one
      row with its own date and `isRecurring` false. */
  lemma NewRowsSingle(tx: NewTransaction, rid: nat, firstId: nat)
    requires !(tx.isRecurring && tx.endDate.Some?)
    ensures |NewRows(tx, rid, firstId)| == 1
    ensures var row := NewRows(tx, rid, firstId)[0];
            row.id == firstId && row.date == tx.date && !row.isRecurring && row.recurringId.None?
            && row.frequency.None? && row.endDate.None?
            && row.amount == tx.amount && row.ttype == tx.ttype && row.description == tx.description
  {
  }

  // ---------------------------------------------------------------------------------------
  // Available balance

  /** What one transaction adds to the available balance. A card purchase dated at or after
      the next closing adds nothing; a bill payment made with another method adds nothing. */
  function BalanceEffect(t: Transaction, nextClosing: Date): int
  {
    match t.ttype
    case Receita => t.amount
    case Despesa =>
      if t.paymentMethod == CreditCard then (if AtOrBefore(nextClosing, t.date) then 0 else -t.amount)
      else if t.isCardBillPayment then 0
      else -t.amount
    case Investimento => if t.isInvestmentWithdrawal then t.amount else -t.amount
  }

  predicate DatedBy(t: Transaction, now: Date)
  {
    AtOrBefore(t.date, now)
  }

  /** `totalBalance`: the initial balance plus the effect of every transaction dated up to now. */
  function TotalBalance(rows: seq<Transaction>, initialBalance: int, cd: int, now: Date): int
  {
    var next := NextClosing(now, cd);
    initialBalance + SumBy(Filter(rows, t => DatedBy(t, now)), t => BalanceEffect(t, next))
  }

  /** The balance rule without the card exclusion: income adds, an expense subtracts unless it
      is a bill payment made with another method than the card, a contribution to an investment
      subtracts and a withdrawal adds. */
  function LedgerEffect(t: Transaction): int
  {
    match t.ttype
    case Receita => t.amount
    case Despesa => if t.paymentMethod != CreditCard && t.isCardBillPayment then 0 else -t.amount
    case Investimento => if t.isInvestmentWithdrawal then t.amount else -t.amount
  }

  /** With a valid closing day the next closing is after now, so the card exclusion never
      drops a transaction that is already dated: the balance is the plain ledger sum. */
  lemma TotalBalanceIsLedger(rows: seq<Transaction>, initialBalance: int, cd: int, now: Date)
    requires ValidClosingDay(cd)
    ensures TotalBalance(rows, initialBalance, cd, now) ==
            initialBalance + SumBy(Filter(rows, t => DatedBy(t, now)), LedgerEffect)
  {
    var next := NextClosing(now, cd);
    NextClosingIsNext(now, cd);
    TimeOrder(now, next);
    var dated := Filter(rows, t => DatedBy(t, now));
    forall t | t in dated ensures BalanceEffect(t, next) == LedgerEffect(t) {
      var i :| 0 <= i < |dated| && dated[i] == t;
    }
    SumByExt(dated, t => BalanceEffect(t, next), LedgerEffect);
  }

  /** Only dated transactions count: adding a transaction dated after now leaves the balance alone. */
  lemma TotalBalanceIgnoresFuture(rows: seq<Transaction>, t: Transaction, initialBalance: int, cd: int, now: Date)
    requires Before(now, t.date)
    ensures TotalBalance(rows + [t], initialBalance, cd, now) == TotalBalance(rows, initialBalance, cd, now)
  {
    FilterAppend(rows, [t], u => DatedBy(u, now));
    assert Filter([t], u => DatedBy(u, now)) == [] by {
      assert [t][..0] == [];
    }
    assert Filter(rows, u => DatedBy(u, now)) + [] == Filter(rows, u => DatedBy(u, now));
  }

  // ---------------------------------------------------------------------------------------
  // Table edits

  /** The fields `updateTransaction` writes to every row it touches (not the id, the date or
      the series id). A frequency or end date the edit leaves undefined is dropped from the
      update's JSON body, so the row keeps the stored one. */
  function WithPayload(t: Transaction, u: Transaction): Transaction
  {
    t.(ttype := u.ttype, description := u.description, amount := u.amount, categoryId := u.categoryId,
       paymentMethod := u.paymentMethod, isCardBillPayment := u.isCardBillPayment,
       isRecurring := u.isRecurring, isInvestmentWithdrawal := u.isInvestmentWithdrawal,
       frequency := if u.frequency.Some? then u.frequency else t.frequency,
       endDate := if u.endDate.Some? then u.endDate else t.endDate)
  }

  /** The rows of `u`'s series that an edit "for this and the following" also rewrites. */
  predicate InFutureOfSeries(t: Transaction, u: Transaction, originalDate: Date)
  {
    u.recurringId.Some? && t.recurringId == u.recurringId && t.id != u.id && AtOrBefore(originalDate, t.date)
  }

  /** The date the edited row had before the edit (the edited date when the row is unknown). */
  function OriginalDate(rows: seq<Transaction>, u: Transaction): Date
  {
    match Find(rows, (t: Transaction) => t.id == u.id)
    case Some(t) => t.date
    case None => u.date
  }

  function UpdateRow(t: Transaction, u: Transaction, applyToFuture: bool, originalDate: Date): Transaction
  {
    if t.id == u.id then WithPayload(t, u).(date := u.date)
    else if applyToFuture && InFutureOfSeries(t, u, originalDate) then WithPayload(t, u)
    else t
  }

  /** The table after `updateTransaction(u, applyToFuture)`. */
  function UpdateRows(rows: seq<Transaction>, u: Transaction, applyToFuture: bool): (r: seq<Transaction>)
    ensures |r| == |rows|
  {
    var od := OriginalDate(rows, u);
    seq(|rows|, i requires 0 <= i < |rows| => UpdateRow(rows[i], u, applyToFuture, od))
  }

  /** An edit rewrites the edited row completely, including its date; with "apply to future"
      and a series id it also rewrites the payload, but not the date, of the rows of the same
      series dated at or after the edited row's original date; nothing else changes. Row ids
      and series ids never change. */
  lemma UpdateRowsSpec(rows: seq<Transaction>, u: Transaction, applyToFuture: bool)
    ensures var r := UpdateRows(rows, u, applyToFuture);
            var od := OriginalDate(rows, u);
      && (forall i :: 0 <= i < |rows| ==> r[i].id == rows[i].id && r[i].recurringId == rows[i].recurringId)
      && (forall i :: 0 <= i < |rows| && rows[i].id == u.id ==> r[i] == WithPayload(rows[i], u).(date := u.date))
      && (forall i :: 0 <= i < |rows| && rows[i].id != u.id && applyToFuture && InFutureOfSeries(rows[i], u, od) ==>
            r[i] == WithPayload(rows[i], u) && r[i].date == rows[i].date)
      && (forall i :: 0 <= i < |rows| && rows[i].id != u.id && !(applyToFuture && InFutureOfSeries(rows[i], u, od)) ==>
            r[i] == rows[i])
      && (!applyToFuture || u.recurringId.None? ==> forall i :: 0 <= i < |rows| && rows[i].id != u.id ==> r[i] == rows[i])
  {
  }

  /** A rewritten row takes the edit's frequency and end date when the edit has them and keeps
      its own otherwise: unticking "recurring" clears the flag but leaves the stored frequency
      and end date in place. */
  lemma UpdateRowsRecurrence(rows: seq<Transaction>, u: Transaction, applyToFuture: bool)
    ensures var r := UpdateRows(rows, u, applyToFuture);
      forall i :: 0 <= i < |rows| && r[i] != rows[i] ==>
        && r[i].isRecurring == u.isRecurring
        && r[i].frequency == (if u.frequency.Some? then u.frequency else rows[i].frequency)
        && r[i].endDate == (if u.endDate.Some? then u.endDate else rows[i].endDate)
  {
  }

  /** The rows a deletion removes: with "delete all future" and a series id, the rows of that
      series dated at or after the target; otherwise the row with the target's id. */
  predicate Deleted(t: Transaction, target: Transaction, deleteAllFuture: bool)
  {
    if deleteAllFuture && target.recurringId.Some? then
      t.recurringId == target.recurringId && AtOrBefore(target.date, t.date)
    else t.id == target.id
  }

  /** The table after `confirmDeleteTransaction`. */
  function DeleteRows(rows: seq<Transaction>, target: Transaction, deleteAllFuture: bool): seq<Transaction>
  {
    Filter(rows, t => !Deleted(t, target, deleteAllFuture))
  }

  /** A deletion keeps exactly the rows it does not select. */
  lemma DeleteRowsMembership(rows: seq<Transaction>, target: Transaction, deleteAllFuture: bool)
    ensures forall t :: t in DeleteRows(rows, target, deleteAllFuture) <==> t in rows && !Deleted(t, target, deleteAllFuture)
  {
    FilterMembership(rows, t => !Deleted(t, target, deleteAllFuture));
  }

  /** The kept rows and the removed rows together are the table before the deletion. */
  lemma DeleteRowsPartition(rows: seq<Transaction>, target: Transaction, deleteAllFuture: bool)
    ensures multiset(DeleteRows(rows, target, deleteAllFuture)) + multiset(Filter(rows, t => Deleted(t, target, deleteAllFuture)))
            == multiset(rows)
  {
    FilterPartition(rows, t => !Deleted(t, target, deleteAllFuture), t => Deleted(t, target, deleteAllFuture));
  }

  /** Transactions of category `from` move to category `to`. */
  function ReassignCategory(rows: seq<Transaction>, from: string, to: string): (r: seq<Transaction>)
    ensures |r| == |rows|
  {
    seq(|rows|, i requires 0 <= i < |rows| => if rows[i].categoryId == from then rows[i].(categoryId := to) else rows[i])
  }

  /** After moving category `from` to a different category, no transaction refers to `from`;
      the moved rows change only their category and every other row is unchanged. */
  lemma ReassignCategorySpec(rows: seq<Transaction>, from: string, to: string)
    requires from != to
    ensures var r := ReassignCategory(rows, from, to);
      && (forall i :: 0 <= i < |r| ==> r[i].categoryId != from)
      && (forall i :: 0 <= i < |r| ==> r[i].(categoryId := rows[i].categoryId) == rows[i])
      && (forall i :: 0 <= i < |r| && rows[i].categoryId != from ==> r[i] == rows[i])
  {
  }

  const OtherPaymentMethod: string := "Outro"

  /** Transactions paid with the method named `name` are set to the method 'Outro'. */
  function ReassignPaymentMethod(rows: seq<Transaction>, name: string): (r: seq<Transaction>)
    ensures |r| == |rows|
  {
    seq(|rows|, i requires 0 <= i < |rows| =>
      if rows[i].paymentMethod == name then rows[i].(paymentMethod := OtherPaymentMethod) else rows[i])
  }

  /** Exactly the transactions that carried the deleted method's name now carry 'Outro'; the
      others are unchanged, and only the payment method changes. */
  lemma ReassignPaymentMethodSpec(rows: seq<Transaction>, name: string)
    ensures var r := ReassignPaymentMethod(rows, name);
      && (forall i :: 0 <= i < |r| ==> (rows[i].paymentMethod == name ==> r[i].paymentMethod == OtherPaymentMethod))
      && (forall i :: 0 <= i < |r| ==> (rows[i].paymentMethod != name ==> r[i] == rows[i]))
      && (forall i :: 0 <= i < |r| ==> r[i].(paymentMethod := rows[i].paymentMethod) == rows[i])
      && (name != OtherPaymentMethod ==> forall i :: 0 <= i < |r| ==> r[i].paymentMethod != name)
  {
  }

  /** The category transactions fall back to when theirs is deleted: one named 'outro'
      (in any case), otherwise the one with id 'others'. */
  function FallbackCategory(categories: seq<Category>): Option<Category>
  {
    Find(categories, (c: Category) => Lower(c.name) == "outro").OrElse(Find(categories, (c: Category) => c.id == "others"))
  }

  /** The transactions and categories after `deleteCategory(id)` as written: the fallback is
      looked up among all the categories, the one being deleted included. */
  function DeleteCategoryAsWritten(rows: seq<Transaction>, categories: seq<Category>, id: string)
    : (seq<Transaction>, seq<Category>)
  {
    var fallback := FallbackCategory(categories);
    (if fallback.Some? then ReassignCategory(rows, id, fallback.value.id) else rows,
     Filter(categories, (c: Category) => c.id != id))
  }

  /** Deleting the category that is itself the fallback leaves its transactions on the deleted
      id, which no category has any more. */
  lemma DeletingFallbackOrphans(rows: seq<Transaction>, categories: seq<Category>, id: string)
    requires FallbackCategory(categories).Some? && FallbackCategory(categories).value.id == id
    ensures var d := DeleteCategoryAsWritten(rows, categories, id);
      && (forall i :: 0 <= i < |rows| && rows[i].categoryId == id ==> d.0[i].categoryId == id)
      && (forall c :: c in d.1 ==> c.id != id)
  {
    FilterMembership(categories, (c: Category) => c.id != id);
  }

  /** The seeded 'Outro' category is stored under a generated id and is the fallback of a list
      in which it comes first, so deleting it is the case above. */
  lemma SeededOutroIsFallback(id: string, rest: seq<Category>)
    ensures FallbackCategory([Category(id, "Outro", "DotsHorizontalIcon", "#6b7280", Some("#ffffff"), None)] + rest).value.id == id
  {
    assert Lower("Outro") == "outro";
  }

  /** The fallback looked up among the categories other than the one being deleted. */
  function FallbackFor(categories: seq<Category>, id: string): (r: Option<Category>)
    ensures r.Some? ==> r.value in categories && r.value.id != id
  {
    Find(categories, (c: Category) => Lower(c.name) == "outro" && c.id != id)
      .OrElse(Find(categories, (c: Category) => c.id == "others" && c.id != id))
  }

  /** `FindIndex` gives the first index satisfying the predicate. */
  lemma FindIndexIs<T>(s: seq<T>, p: T -> bool, k: nat)
    requires k < |s| && p(s[k]) && forall j :: 0 <= j < k ==> !p(s[j])
    ensures FindIndex(s, p) == Some(k)
  {
  }

  /** Whenever the source's fallback is not the category being deleted, the corrected lookup
      finds the same one. */
  lemma FallbackForAgrees(categories: seq<Category>, id: string)
    requires FallbackCategory(categories).Some? && FallbackCategory(categories).value.id != id
    ensures FallbackFor(categories, id) == FallbackCategory(categories)
  {
    var p := (c: Category) => Lower(c.name) == "outro";
    var p' := (c: Category) => Lower(c.name) == "outro" && c.id != id;
    var q := (c: Category) => c.id == "others";
    var q' := (c: Category) => c.id == "others" && c.id != id;
    if Find(categories, p).Some? {
      var k := FindIndex(categories, p).value;
      FindIndexIs(categories, p', k);
    } else {
      assert Find(categories, p').None?;
      var k := FindIndex(categories, q).value;
      FindIndexIs(categories, q', k);
    }
  }

  /** The transactions and categories after deleting category `id`, the fallback taken among
      the other categories. */
  function DeleteCategoryRows(rows: seq<Transaction>, categories: seq<Category>, id: string)
    : (seq<Transaction>, seq<Category>)
  {
    var fallback := FallbackFor(categories, id);
    (if fallback.Some? then ReassignCategory(rows, id, fallback.value.id) else rows,
     Filter(categories, (c: Category) => c.id != id))
  }

  /** Only the deleted category goes; when a fallback remains, every transaction of the deleted
      category moves to it, so none refers to the deleted id, and no other transaction changes. */
  lemma DeleteCategorySpec(rows: seq<Transaction>, categories: seq<Category>, id: string)
    ensures var d := DeleteCategoryRows(rows, categories, id);
      && |d.0| == |rows| && (forall i :: 0 <= i < |rows| ==> d.0[i].id == rows[i].id)
      && (forall c :: c in d.1 <==> c in categories && c.id != id)
      && (forall i :: 0 <= i < |rows| && rows[i].categoryId != id ==> d.0[i] == rows[i])
      && (FallbackFor(categories, id).Some? ==>
            && FallbackFor(categories, id).value in d.1
            && (forall i :: 0 <= i < |rows| ==> d.0[i].categoryId != id)
            && (forall i :: 0 <= i < |rows| && rows[i].categoryId == id ==>
                  d.0[i] == rows[i].(categoryId := FallbackFor(categories, id).value.id)))
      && (FallbackFor(categories, id).None? ==> d.0 == rows)
  {
    FilterMembership(categories, (c: Category) => c.id != id);
    var fallback := FallbackFor(categories, id);
    if fallback.Some? {
      ReassignCategorySpec(rows, id, fallback.value.id);
    }
  }

  /** `paymentMethods.find(p => p.id === id)`. */
  function FindMethod(methods: seq<PaymentMethod>, id: string): (r: Option<PaymentMethod>)
    ensures r.Some? ==> r.value in methods && r.value.id == id
    ensures r.None? ==> forall m :: m in methods ==> m.id != id
  {
    Find(methods, (p: PaymentMethod) => p.id == id)
  }

  /** The transactions and methods after deleting method `id`: if a method has that id, the
      transactions paid with its name move to 'Outro'; the methods with that id go. */
  function DeleteMethodRows(rows: seq<Transaction>, methods: seq<PaymentMethod>, id: string)
    : (seq<Transaction>, seq<PaymentMethod>)
  {
    var target := FindMethod(methods, id);
    (if target.Some? then ReassignPaymentMethod(rows, target.value.name) else rows,
     Filter(methods, (p: PaymentMethod) => p.id != id))
  }

  /** Only the deleted method goes; exactly the transactions that carried its name now carry
      'Outro', only in their payment method, and every other transaction is unchanged. */
  lemma DeleteMethodSpec(rows: seq<Transaction>, methods: seq<PaymentMethod>, id: string)
    ensures var d := DeleteMethodRows(rows, methods, id); var target := FindMethod(methods, id);
      && |d.0| == |rows| && (forall i :: 0 <= i < |rows| ==> d.0[i].id == rows[i].id)
      && (forall m :: m in d.1 <==> m in methods && m.id != id)
      && (target.Some? ==> forall i :: 0 <= i < |rows| ==>
            && (rows[i].paymentMethod == target.value.name ==> d.0[i] == rows[i].(paymentMethod := OtherPaymentMethod))
            && (rows[i].paymentMethod != target.value.name ==> d.0[i] == rows[i]))
      && (target.None? ==> d.0 == rows)
  {
    FilterMembership(methods, (p: PaymentMethod) => p.id != id);
    var target := FindMethod(methods, id);
    if target.Some? {
      ReassignPaymentMethodSpec(rows, target.value.name);
    }
  }

  /** The goals after a movement of `amount`: the goal found with that id gets its current
      amount plus `amount` (every row with that id receives the new value). */
  function CreditGoal(goals: seq<Goal>, goalId: nat, amount: int): (r: seq<Goal>)
    ensures |r| == |goals|
  {
    match Find(goals, (g: Goal) => g.id == goalId)
    case None => goals
    case Some(g) =>
      seq(|goals|, i requires 0 <= i < |goals| =>
        if goals[i].id == goalId then goals[i].(currentAmount := g.currentAmount + amount) else goals[i])
  }

  predicate DistinctGoalIds(goals: seq<Goal>)
  {
    forall i, j :: 0 <= i < j < |goals| ==> goals[i].id != goals[j].id
  }

  /** With distinct goal ids, a movement adds `amount` to the current amount of its goal and
      changes nothing else. */
  lemma CreditGoalSpec(goals: seq<Goal>, goalId: nat, amount: int)
    requires DistinctGoalIds(goals)
    ensures var r := CreditGoal(goals, goalId, amount);
      && (forall i :: 0 <= i < |goals| && goals[i].id == goalId ==>
            r[i] == goals[i].(currentAmount := goals[i].currentAmount + amount))
      && (forall i :: 0 <= i < |goals| && goals[i].id != goalId ==> r[i] == goals[i])
  {
    match Find(goals, (g: Goal) => g.id == goalId)
    case None =>
    case Some(g) =>
      var k := FindIndex(goals, (g: Goal) => g.id == goalId).value;
      forall i | 0 <= i < |goals| && goals[i].id == goalId ensures goals[i] == g {
        assert i == k;
      }
  }

  /** The stored settings row, with the values as the database returns them. */
  datatype SettingsRow = SettingsRow(initialBalance: Option<int>, initialInvestment: Option<int>, cardClosingDay: Option<int>)

  const DefaultClosingDay: int := 25

  /** `card_closing_day || 25`: a missing or zero closing day reads as 25. The day read is a
      usable closing day exactly when the stored one is missing, zero or one the settings modal
      accepts (1 to 28). */
  function StoredClosingDay(stored: Option<int>): (cd: int)
    ensures stored.Some? && stored.value != 0 ==> cd == stored.value
    ensures stored.None? || stored.value == 0 ==> cd == DefaultClosingDay
    ensures ValidClosingDay(cd) <==> stored.None? || 0 <= stored.value <= 28
  {
    match stored
    case Some(d) => if d != 0 then d else DefaultClosingDay
    case None => DefaultClosingDay
  }

  function TxId(t: Transaction): nat
  {
    t.id
  }

  class FinanceStore {
    var transactions: seq<Transaction>
    var goals: seq<Goal>
    var goalTransactions: seq<GoalTransaction>
    var categories: seq<Category>
    var paymentMethods: seq<PaymentMethod>
    var cardClosingDay: int
    var initialBalance: int
    var initialInvestment: int
    var nextId: nat

    /** Every row id was issued by the store and no two transactions share one. */
    ghost predicate Valid()
      reads this
    {
      && (forall i :: 0 <= i < |transactions| ==> transactions[i].id < nextId)
      && DistinctBy(transactions, TxId)
      && (forall i :: 0 <= i < |goalTransactions| ==> goalTransactions[i].id < nextId)
    }

    /** The state before anything is loaded: empty tables, closing day 25, zero balances. */
    constructor ()
      ensures Valid()
      ensures transactions == [] && goals == [] && goalTransactions == []
      ensures categories == [] && paymentMethods == []
      ensures cardClosingDay == DefaultClosingDay && initialBalance == 0 && initialInvestment == 0
    {
      transactions := [];
      goals := [];
      goalTransactions := [];
      categories := [];
      paymentMethods := [];
      cardClosingDay := DefaultClosingDay;
      initialBalance := 0;
      initialInvestment := 0;
      nextId := 0;
    }

    /** Loading the settings row: unparsable balances read as 0 and the closing day as 25. */
    method LoadSettings(settings: Option<SettingsRow>)
      modifies this
      requires Valid()
      ensures Valid()
      ensures settings.None? ==> initialBalance == old(initialBalance) && initialInvestment == old(initialInvestment)
                                 && cardClosingDay == old(cardClosingDay)
      ensures settings.Some? ==> initialBalance == settings.value.initialBalance.GetOr(0)
                                 && initialInvestment == settings.value.initialInvestment.GetOr(0)
                                 && cardClosingDay == StoredClosingDay(settings.value.cardClosingDay)
      ensures settings.Some? ==> (ValidClosingDay(cardClosingDay) <==>
                                  settings.value.cardClosingDay.None? || 0 <= settings.value.cardClosingDay.value <= 28)
      ensures transactions == old(transactions) && goals == old(goals) && goalTransactions == old(goalTransactions)
      ensures categories == old(categories) && paymentMethods == old(paymentMethods) && nextId == old(nextId)
    {
      if settings.Some? {
        initialBalance := settings.value.initialBalance.GetOr(0);
        initialInvestment := settings.value.initialInvestment.GetOr(0);
        cardClosingDay := StoredClosingDay(settings.value.cardClosingDay);
      }
    }

    /** `addTransaction`: inserts the rows the transaction expands into. */
    method AddTransaction(tx: NewTransaction, seriesId: nat)
      modifies this
      requires Valid()
      ensures Valid()
      ensures transactions == old(transactions) + NewRows(tx, seriesId, old(nextId))
      ensures nextId == old(nextId) + |NewRows(tx, seriesId, old(nextId))|
      ensures goals == old(goals) && goalTransactions == old(goalTransactions)
      ensures categories == old(categories) && paymentMethods == old(paymentMethods)
      ensures cardClosingDay == old(cardClosingDay) && initialBalance == old(initialBalance)
      ensures initialInvestment == old(initialInvestment)
    {
      var rows: seq<Transaction>;
      if tx.isRecurring && tx.endDate.Some? {
        var dates := ExpandDates(tx.date, tx.endDate.value, tx.frequency);
        rows := SeriesRows(tx, seriesId, dates, nextId);
        SeriesRowsSpec(tx, seriesId, dates, nextId);
      } else {
        rows := [SingleRow(tx, nextId)];
      }
      transactions := transactions + rows;
      nextId := nextId + |rows|;
    }

    /** `updateTransaction`: rewrites the edited row and, when asked, the rest of its series. */
    method UpdateTransaction(u: Transaction, applyToFuture: bool)
      modifies this
      requires Valid()
      ensures Valid()
      ensures transactions == UpdateRows(old(transactions), u, applyToFuture)
      ensures goals == old(goals) && goalTransactions == old(goalTransactions) && nextId == old(nextId)
      ensures categories == old(categories) && paymentMethods == old(paymentMethods)
      ensures cardClosingDay == old(cardClosingDay) && initialBalance == old(initialBalance)
      ensures initialInvestment == old(initialInvestment)
    {
      UpdateRowsSpec(transactions, u, applyToFuture);
      transactions := UpdateRows(transactions, u, applyToFuture);
    }

    /** `confirmDeleteTransaction`: without a target nothing happens. */
    method ConfirmDeleteTransaction(target: Option<Transaction>, deleteAllFuture: bool)
      modifies this
      requires Valid()
      ensures Valid()
      ensures target.None? ==> transactions == old(transactions)
      ensures target.Some? ==> transactions == DeleteRows(old(transactions), target.value, deleteAllFuture)
      ensures goals == old(goals) && goalTransactions == old(goalTransactions) && nextId == old(nextId)
      ensures categories == old(categories) && paymentMethods == old(paymentMethods)
      ensures cardClosingDay == old(cardClosingDay) && initialBalance == old(initialBalance)
      ensures initialInvestment == old(initialInvestment)
    {
      if target.Some? {
        var r := DeleteRows(transactions, target.value, deleteAllFuture);
        FilterDistinctBy(transactions, t => !Deleted(t, target.value, deleteAllFuture), TxId);
        DeleteRowsMembership(transactions, target.value, deleteAllFuture);
        transactions := r;
      }
    }

    /** `deleteCategory`: moves the category's transactions to the fallback category when
      there is one other than it, then removes the category. */
    method DeleteCategory(id: string)
      modifies this
      requires Valid()
      ensures Valid()
      ensures (transactions, categories) == DeleteCategoryRows(old(transactions), old(categories), id)
      ensures goals == old(goals) && goalTransactions == old(goalTransactions) && nextId == old(nextId)
      ensures paymentMethods == old(paymentMethods)
      ensures cardClosingDay == old(cardClosingDay) && initialBalance == old(initialBalance)
      ensures initialInvestment == old(initialInvestment)
    {
      var d := DeleteCategoryRows(transactions, categories, id);
      DeleteCategorySpec(transactions, categories, id);
      transactions := d.0;
      categories := d.1;
    }

    /** `deletePaymentMethod`: transactions paid with the method become 'Outro', then the
      method is removed. */
    method DeletePaymentMethod(id: string)
      modifies this
      requires Valid()
      ensures Valid()
      ensures (transactions, paymentMethods) == DeleteMethodRows(old(transactions), old(paymentMethods), id)
      ensures goals == old(goals) && goalTransactions == old(goalTransactions) && nextId == old(nextId)
      ensures categories == old(categories)
      ensures cardClosingDay == old(cardClosingDay) && initialBalance == old(initialBalance)
      ensures initialInvestment == old(initialInvestment)
    {
      var d := DeleteMethodRows(transactions, paymentMethods, id);
      DeleteMethodSpec(transactions, paymentMethods, id);
      transactions := d.0;
      paymentMethods := d.1;
    }

    /** `addValueToGoal`: records the movement and credits it to the goal. */
    method AddValueToGoal(goalId: nat, amount: int, description: string, now: Date)
      modifies this
      requires Valid()
      ensures Valid()
      ensures goalTransactions == old(goalTransactions) + [GoalTransaction(old(nextId), goalId, amount, now, description)]
      ensures goals == CreditGoal(old(goals), goalId, amount)
      ensures nextId == old(nextId) + 1
      ensures transactions == old(transactions)
      ensures categories == old(categories) && paymentMethods == old(paymentMethods)
      ensures cardClosingDay == old(cardClosingDay) && initialBalance == old(initialBalance)
      ensures initialInvestment == old(initialInvestment)
    {
      goalTransactions := goalTransactions + [GoalTransaction(nextId, goalId, amount, now, description)];
      nextId := nextId + 1;
      goals := CreditGoal(goals, goalId, amount);
    }

    /** `setInitialBalances`: both values are stored together. */
    method SetInitialBalances(balance: int, investment: int)
      modifies this
      requires Valid()
      ensures Valid()
      ensures initialBalance == balance && initialInvestment == investment
      ensures transactions == old(transactions) && goals == old(goals) && goalTransactions == old(goalTransactions)
      ensures categories == old(categories) && paymentMethods == old(paymentMethods)
      ensures cardClosingDay == old(cardClosingDay) && nextId == old(nextId)
    {
      initialBalance := balance;
      initialInvestment := investment;
    }

    /** `setCardClosingDay`: the store takes the day as given; the settings screen checks it. */
    method SetCardClosingDay(day: int)
      modifies this
      requires Valid()
      ensures Valid()
      ensures cardClosingDay == day
      ensures transactions == old(transactions) && goals == old(goals) && goalTransactions == old(goalTransactions)
      ensures categories == old(categories) && paymentMethods == old(paymentMethods)
      ensures initialBalance == old(initialBalance) && initialInvestment == old(initialInvestment)
      ensures nextId == old(nextId)
    {
      cardClosingDay := day;
    }
  }
}
