/** The reports screen: transactions grouped into day, week, month, quarter or year buckets
    by their effective date, with income, expenses and net investment per bucket, optionally
    accumulated bucket after bucket. */
module Reports {
  import opened Seqs
  import opened Groups
  import opened Calendar
  import opened Model
  import opened Billing

  datatype Granularity = Daily | Weekly | Monthly | Quarterly | Yearly

  /** A bucket label. The rendered label (`dd/mm/yy`, `Sem w/yy`, `Mmm/yy`, `Tq yyyy`, `yyyy`) is
      a function of these fields. */
  datatype GroupKey =
    | DayKey(year: int, month: int, day: int)
    | WeekKey(week: int, weekYear: int)
    | MonthKey(year: int, month: int)
    | QuarterKey(quarter: int, year: int)
    | YearKey(year: int)

  /** `Math.floor(getMonth() / 3) + 1`. */
  function Quarter(d: Date): (q: int)
    ensures 1 <= q <= 4
    ensures 3 * (q - 1) <= d.month < 3 * q
  {
    d.month / 3 + 1
  }

  /** The weekly label as written: the week number next to the last two digits of the calendar
      year of the date. */
  function WeekKeyAsWritten(d: Date): GroupKey
  {
    WeekKey(WeekNumber(d), d.year % 100)
  }

  /** The weekly label with the year the week is numbered in: the year of its Thursday. */
  function WeekKeyOf(d: Date): GroupKey
  {
    WeekKey(WeekNumber(d), ThursdayOf(d).year)
  }

  /** `getGroupKey`, with the weekly label corrected, and with the full year where the rendered
      daily, weekly and monthly labels show two digits. */
  function GroupKeyOf(d: Date, g: Granularity): GroupKey
  {
    match g
    case Daily => DayKey(d.year, d.month, d.day)
    case Weekly => WeekKeyOf(d)
    case Monthly => MonthKey(d.year, d.month)
    case Quarterly => QuarterKey(Quarter(d), d.year)
    case Yearly => YearKey(d.year)
  }

  /** A December 31st that falls on a Monday, Tuesday or Wednesday (31 December 2024 was a
      Tuesday, see `WeekDayExamples`) lies in week 1 of the next year, while January 4th of its
      own year lies in week 1 of that year: the two dates lie in different weeks, yet both get the
      label "Sem 1/yy". A weekly report over the year adds its last days into its first week.
      With the week's own year the labels differ. */
  lemma WeekKeyAsWrittenCollides(y: int)
    requires 1 <= WeekDay(Civil(y, 11, 31, 0)) <= 3
    ensures var a := Civil(y, 11, 31, 0);
            var b := Civil(y, 0, 4, 0);
            && WeekKeyAsWritten(a) == WeekKeyAsWritten(b)
            && ThursdayOf(a) != ThursdayOf(b)
            && WeekKeyOf(a) != WeekKeyOf(b)
  {
    LateDecemberInWeekOne(y);
    JanuaryFourthInWeekOne(y);
  }

  /** Two dates get the same corrected weekly label exactly when they lie in the same
      Monday-to-Sunday week, that is when they share their Thursday. */
  lemma WeekKeyIdentifiesWeek(a: Date, b: Date)
    ensures WeekKeyOf(a) == WeekKeyOf(b) <==> ThursdayOf(a) == ThursdayOf(b)
  {
    if WeekKeyOf(a) == WeekKeyOf(b) {
      SameWeekKeySameThursday(a, b);
    }
  }

  lemma SameWeekKeySameThursday(a: Date, b: Date)
    requires WeekKeyOf(a) == WeekKeyOf(b)
    ensures ThursdayOf(a) == ThursdayOf(b)
  {
    ThursdayNumbers(a);
    ThursdayNumbers(b);
    var ta := ThursdayOf(a);
    var tb := ThursdayOf(b);
    SameWeekSameDay(DayNumber(ta), DayNumber(tb), MonthStart(12 * ta.year), WeekNumber(a));
    TimeInjectiveDays(ta, tb);
  }

  /** The facts about the Thursday of a date that its week number rests on. */
  lemma ThursdayNumbers(c: Date)
    ensures var t := ThursdayOf(c);
            var n := DayNumber(t);
            && (n + 4) % 7 == 4
            && (WeekNumber(c) - 1) * 7 < n - MonthStart(12 * t.year) + 1 <= WeekNumber(c) * 7
  {
    WeekNumberCeil(c);
  }

  /** Two Thursdays counted from the same first day of the year that fall in the same 7-day
      block of that year are the same day. */
  lemma SameWeekSameDay(na: int, nb: int, first: int, w: int)
    requires (na + 4) % 7 == 4 && (nb + 4) % 7 == 4
    requires (w - 1) * 7 < na - first + 1 <= w * 7
    requires (w - 1) * 7 < nb - first + 1 <= w * 7
    ensures na == nb
  {
    var qa := (na + 4) / 7;
    var qb := (nb + 4) / 7;
    assert na == 7 * qa && nb == 7 * qb;
  }

  /** Each granularity groups exactly the dates it names: the same day, the same week, the same
      month, the same quarter of the same year, the same year. */
  lemma GroupKeySpec(a: Date, b: Date, g: Granularity)
    ensures GroupKeyOf(a, g) == GroupKeyOf(b, g) <==>
            match g
            case Daily => a.year == b.year && a.month == b.month && a.day == b.day
            case Weekly => ThursdayOf(a) == ThursdayOf(b)
            case Monthly => MonthIndex(a) == MonthIndex(b)
            case Quarterly => a.year == b.year && a.month / 3 == b.month / 3
            case Yearly => a.year == b.year
  {
    if g == Weekly {
      WeekKeyIdentifiesWeek(a, b);
    }
  }

  /** A transaction with the date the reports place it on. */
  datatype Dated = Dated(t: Transaction, eff: Date)

  function WithEffectiveDate(cd: int): Transaction -> Dated
  {
    (t: Transaction) => Dated(t, EffectiveDate(t, cd))
  }

  /** `[start 00:00, end 23:59:59]` on the effective date. */
  predicate InRange(d: Dated, startDay: Date, endDay: Date)
  {
    AtOrBefore(StartOfDay(startDay), d.eff) && AtOrBefore(d.eff, EndOfDay(endDay))
  }

  /** The rows whose effective date lies in the chosen range. */
  function InRangeOf(startDay: Date, endDay: Date): Dated -> bool
  {
    (d: Dated) => InRange(d, startDay, endDay)
  }

  /** `a.effectiveDate.getTime() - b.effectiveDate.getTime()` as an ordering. */
  predicate EffLe(a: Dated, b: Dated)
  {
    AtOrBefore(a.eff, b.eff)
  }

  lemma EffLeIsTotalPreorder()
    ensures TotalPreorder(EffLe)
  {
    forall a: Dated, b: Dated, c: Dated ensures (EffLe(a, b) || EffLe(b, a)) && (EffLe(a, b) && EffLe(b, c) ==> EffLe(a, c)) {
      AtOrBeforeTotal(a.eff, b.eff, c.eff);
    }
  }

  predicate NotBillPayment(t: Transaction)
  {
    !t.isCardBillPayment
  }

  /** The rows of `evolutionData`: no bill payments, effective date in range, in effective-date
      order. */
  function EvolutionRows(rows: seq<Transaction>, cd: int, startDay: Date, endDay: Date): seq<Dated>
  {
    var mapped := Map(Filter(rows, NotBillPayment), WithEffectiveDate(cd));
    SortBy(Filter(mapped, InRangeOf(startDay, endDay)), EffLe)
  }

  /** The evolution rows are exactly the non-bill transactions whose effective date is in range,
      each once per occurrence, ordered by effective date. */
  lemma EvolutionRowsSpec(rows: seq<Transaction>, cd: int, startDay: Date, endDay: Date)
    ensures var r := EvolutionRows(rows, cd, startDay, endDay);
            && SortedBy(r, EffLe)
            && multiset(r) == multiset(Filter(Map(Filter(rows, NotBillPayment), WithEffectiveDate(cd)),
                                              InRangeOf(startDay, endDay)))
            && (forall i :: 0 <= i < |r| ==> !r[i].t.isCardBillPayment && InRange(r[i], startDay, endDay)
                                             && r[i].eff == EffectiveDate(r[i].t, cd) && r[i].t in rows)
  {
    var mapped := Map(Filter(rows, NotBillPayment), WithEffectiveDate(cd));
    var f := Filter(mapped, InRangeOf(startDay, endDay));
    EffLeIsTotalPreorder();
    SortBySorted(f, EffLe);
    var r := SortBy(f, EffLe);
    forall i | 0 <= i < |r|
      ensures !r[i].t.isCardBillPayment && InRange(r[i], startDay, endDay) && r[i].eff == EffectiveDate(r[i].t, cd) && r[i].t in rows
    {
      assert r[i] in multiset(f);
      var j :| 0 <= j < |f| && f[j] == r[i];
      FilterIndex(mapped, InRangeOf(startDay, endDay), j);
      var k :| 0 <= k < |mapped| && mapped[k] == f[j];
      FilterIndex(rows, NotBillPayment, k);
    }
  }

  /** Income, expenses and net investment of one bucket. */
  datatype Totals = Totals(receitas: int, despesas: int, investimentos: int)

  const NoTotals: Totals := Totals(0, 0, 0)

  /** What one transaction adds to its bucket: income to receitas, an expense to despesas, an
      investment to investimentos with a withdrawal counted negative. */
  function AddTx(v: Totals, d: Dated): Totals
  {
    match d.t.ttype
    case Receita => v.(receitas := v.receitas + d.t.amount)
    case Despesa => v.(despesas := v.despesas + d.t.amount)
    case Investimento => v.(investimentos := v.investimentos + NetInvestment(d.t))
  }

  function IncomeOf(d: Dated): int
  {
    if d.t.ttype == Receita then d.t.amount else 0
  }

  function ExpenseOf(d: Dated): int
  {
    if d.t.ttype == Despesa then d.t.amount else 0
  }

  function InvestmentOf(d: Dated): int
  {
    if d.t.ttype == Investimento then NetInvestment(d.t) else 0
  }

  function Receitas(v: Totals): int
  {
    v.receitas
  }

  function Despesas(v: Totals): int
  {
    v.despesas
  }

  function Investimentos(v: Totals): int
  {
    v.investimentos
  }

  /** Folding a run of transactions into an empty bucket gives its three column sums. */
  lemma {:induction false} FoldTotals(s: seq<Dated>)
    ensures FoldLeft(s, NoTotals, AddTx) == Totals(SumBy(s, IncomeOf), SumBy(s, ExpenseOf), SumBy(s, InvestmentOf))
  {
    if s != [] {
      FoldTotals(s[..|s| - 1]);
    }
  }

  function KeyOf(g: Granularity): Dated -> GroupKey
  {
    (d: Dated) => GroupKeyOf(d.eff, g)
  }

  /** The `dataMap` loop of `evolutionData`: one bucket per label, created empty the first time
      the label is seen and then added to. */
  method EvolutionBuckets(filtered: seq<Dated>, g: Granularity) returns (keys: seq<GroupKey>, buckets: map<GroupKey, Totals>)
    ensures Grouping(keys, buckets) == GroupFold(filtered, KeyOf(g), NoTotals, AddTx)
  {
    keys := [];
    buckets := map[];
    var i := 0;
    while i < |filtered|
      invariant 0 <= i <= |filtered|
      invariant Grouping(keys, buckets) == GroupFold(filtered[..i], KeyOf(g), NoTotals, AddTx)
    {
      GroupLoopStep(filtered, i, keys, buckets, KeyOf(g), NoTotals, AddTx);
      var d := filtered[i];
      var key := KeyOf(g)(d);
      if key !in buckets {
        buckets := buckets[key := NoTotals];
        keys := keys + [key];
      }
      buckets := buckets[key := AddTx(buckets[key], d)];
      i := i + 1;
    }
    assert filtered[..|filtered|] == filtered;
  }

  /** Each bucket holds the income, expense and net investment sums of exactly the rows with its
      label; the labels are the distinct labels of the rows in first-seen order. */
  lemma EvolutionBucketsSpec(filtered: seq<Dated>, g: Granularity)
    ensures var grp := GroupFold(filtered, KeyOf(g), NoTotals, AddTx);
            && grp.keys == Dedup(Map(filtered, KeyOf(g)))
            && forall k :: k in grp.values ==>
                 var rowsOfK := Filter(filtered, HasKey(KeyOf(g), k));
                 grp.values[k] == Totals(SumBy(rowsOfK, IncomeOf), SumBy(rowsOfK, ExpenseOf), SumBy(rowsOfK, InvestmentOf))
  {
    GroupKeys(filtered, KeyOf(g), NoTotals, AddTx);
    BucketValues(filtered, KeyOf(g));
  }

  lemma BucketValues(filtered: seq<Dated>, key: Dated -> GroupKey)
    ensures var grp := GroupFold(filtered, key, NoTotals, AddTx);
            forall k :: k in grp.values ==>
              var rowsOfK := Filter(filtered, HasKey(key, k));
              grp.values[k] == Totals(SumBy(rowsOfK, IncomeOf), SumBy(rowsOfK, ExpenseOf), SumBy(rowsOfK, InvestmentOf))
  {
    var grp := GroupFold(filtered, key, NoTotals, AddTx);
    GroupValues(filtered, key, NoTotals, AddTx);
    forall k | k in grp.values
      ensures var rowsOfK := Filter(filtered, HasKey(key, k));
              grp.values[k] == Totals(SumBy(rowsOfK, IncomeOf), SumBy(rowsOfK, ExpenseOf), SumBy(rowsOfK, InvestmentOf))
    {
      FoldTotals(Filter(filtered, HasKey(key, k)));
    }
  }

  /** Summed over all buckets, each column equals its sum over the rows: every row lands in one
      bucket. */
  lemma EvolutionColumnTotals(filtered: seq<Dated>, g: Granularity)
    ensures var grp := GroupFold(filtered, KeyOf(g), NoTotals, AddTx);
            && SumValues(grp.keys, grp.values, Receitas) == SumBy(filtered, IncomeOf)
            && SumValues(grp.keys, grp.values, Despesas) == SumBy(filtered, ExpenseOf)
            && SumValues(grp.keys, grp.values, Investimentos) == SumBy(filtered, InvestmentOf)
  {
    GroupColumnTotal(filtered, KeyOf(g), NoTotals, AddTx, Receitas, IncomeOf);
    GroupColumnTotal(filtered, KeyOf(g), NoTotals, AddTx, Despesas, ExpenseOf);
    GroupColumnTotal(filtered, KeyOf(g), NoTotals, AddTx, Investimentos, InvestmentOf);
  }

  /** One chart row: a label and its three values. */
  datatype Row = Row(name: GroupKey, totals: Totals)

  /** `Object.entries(dataMap).map(...)`: the buckets in label order. */
  function RawRows(keys: seq<GroupKey>, buckets: map<GroupKey, Totals>): (r: seq<Row>)
    requires forall k :: k in keys ==> k in buckets
    ensures |r| == |keys|
    ensures forall i :: 0 <= i < |keys| ==> r[i] == Row(keys[i], buckets[keys[i]])
  {
    seq(|keys|, i requires 0 <= i < |keys| => Row(keys[i], buckets[keys[i]]))
  }

  function RowReceitas(r: Row): int
  {
    r.totals.receitas
  }

  function RowDespesas(r: Row): int
  {
    r.totals.despesas
  }

  function RowInvestimentos(r: Row): int
  {
    r.totals.investimentos
  }

  /** The column sums of a run of rows. */
  function ColumnSums(rows: seq<Row>): Totals
  {
    Totals(SumBy(rows, RowReceitas), SumBy(rows, RowDespesas), SumBy(rows, RowInvestimentos))
  }

  /** The rows of the accumulated view: each row holds the column sums of the rows up to it. */
  function AccumulatedRows(raw: seq<Row>): (r: seq<Row>)
    ensures |r| == |raw|
  {
    seq(|raw|, i requires 0 <= i < |raw| => Row(raw[i].name, ColumnSums(raw[..i + 1])))
  }

  /** The accumulated `map` with the running `accR`, `accD`, `accI`. */
  method Accumulate(raw: seq<Row>) returns (acc: seq<Row>)
    ensures acc == AccumulatedRows(raw)
  {
    var accR, accD, accI := 0, 0, 0;
    acc := [];
    var i := 0;
    while i < |raw|
      invariant 0 <= i <= |raw|
      invariant acc == AccumulatedRows(raw)[..i]
      invariant Totals(accR, accD, accI) == ColumnSums(raw[..i])
    {
      assert raw[..i + 1] == raw[..i] + [raw[i]];
      accR := accR + raw[i].totals.receitas;
      accD := accD + raw[i].totals.despesas;
      accI := accI + raw[i].totals.investimentos;
      acc := acc + [Row(raw[i].name, Totals(accR, accD, accI))];
      i := i + 1;
    }
  }

  /** The accumulated view keeps the labels, starts with the first bucket, and moves from one
      row to the next by exactly the next bucket's values. */
  lemma AccumulatedRowsSpec(raw: seq<Row>)
    ensures var acc := AccumulatedRows(raw);
            && (forall i :: 0 <= i < |raw| ==> acc[i].name == raw[i].name)
            && (|raw| > 0 ==> acc[0].totals == raw[0].totals)
            && (forall i :: 0 < i < |raw| ==>
                  acc[i].totals == Totals(acc[i - 1].totals.receitas + raw[i].totals.receitas,
                                          acc[i - 1].totals.despesas + raw[i].totals.despesas,
                                          acc[i - 1].totals.investimentos + raw[i].totals.investimentos))
  {
    var acc := AccumulatedRows(raw);
    if |raw| > 0 {
      assert acc[0] == Row(raw[0].name, ColumnSums(raw[..1]));
      assert raw[..1] == [raw[0]];
      assert [raw[0]][..0] == [];
      assert SumBy([raw[0]], RowReceitas) == RowReceitas(raw[0]);
      assert SumBy([raw[0]], RowDespesas) == RowDespesas(raw[0]);
      assert SumBy([raw[0]], RowInvestimentos) == RowInvestimentos(raw[0]);
    }
    forall i | 0 < i < |raw|
      ensures acc[i].totals == Totals(acc[i - 1].totals.receitas + raw[i].totals.receitas,
                                      acc[i - 1].totals.despesas + raw[i].totals.despesas,
                                      acc[i - 1].totals.investimentos + raw[i].totals.investimentos)
    {
      assert raw[..i + 1][..i] == raw[..i];
    }
  }

  /** The column sums of the rows are the sums over the buckets. */
  lemma {:induction false} RawRowsSums(keys: seq<GroupKey>, buckets: map<GroupKey, Totals>)
    requires forall k :: k in keys ==> k in buckets
    ensures ColumnSums(RawRows(keys, buckets))
            == Totals(SumValues(keys, buckets, Receitas), SumValues(keys, buckets, Despesas), SumValues(keys, buckets, Investimentos))
  {
    if keys != [] {
      var init := keys[..|keys| - 1];
      RawRowsSums(init, buckets);
      assert RawRows(keys, buckets)[..|keys| - 1] == RawRows(init, buckets);
    }
  }

  /** The chart rows of a run of filtered rows: its buckets, accumulated when asked. */
  function BucketRows(f: seq<Dated>, g: Granularity, accumulated: bool): seq<Row>
  {
    var grp := GroupFold(f, KeyOf(g), NoTotals, AddTx);
    var raw := RawRows(grp.keys, grp.values);
    if accumulated then AccumulatedRows(raw) else raw
  }

  /** `evolutionData`. */
  function EvolutionData(rows: seq<Transaction>, cd: int, startDay: Date, endDay: Date, g: Granularity,
                         accumulated: bool): seq<Row>
  {
    BucketRows(EvolutionRows(rows, cd, startDay, endDay), g, accumulated)
  }

  /** Computes `evolutionData` the way the screen does: filter and sort, fill the buckets in a
      loop, and accumulate in a second loop when asked. */
  method ComputeEvolution(rows: seq<Transaction>, cd: int, startDay: Date, endDay: Date, g: Granularity,
                          accumulated: bool) returns (data: seq<Row>)
    ensures data == EvolutionData(rows, cd, startDay, endDay, g, accumulated)
  {
    var filtered := EvolutionRows(rows, cd, startDay, endDay);
    var keys, buckets := EvolutionBuckets(filtered, g);
    var raw := RawRows(keys, buckets);
    if accumulated {
      data := Accumulate(raw);
    } else {
      data := raw;
    }
  }

  /** Without accumulation the columns add up to the totals of the rows; with it, the last row
      holds exactly those totals. */
  lemma BucketRowsTotals(f: seq<Dated>, g: Granularity)
    ensures var all := Totals(SumBy(f, IncomeOf), SumBy(f, ExpenseOf), SumBy(f, InvestmentOf));
            && ColumnSums(BucketRows(f, g, false)) == all
            && (f != [] ==> var acc := BucketRows(f, g, true);
                            |acc| > 0 && acc[|acc| - 1].totals == all)
  {
    RawBucketTotals(f, g);
    if f != [] {
      var grp := GroupFold(f, KeyOf(g), NoTotals, AddTx);
      BucketsNonEmpty(f, g);
      LastAccumulatedRow(RawRows(grp.keys, grp.values));
    }
  }

  lemma BucketsNonEmpty(f: seq<Dated>, g: Granularity)
    requires f != []
    ensures GroupFold(f, KeyOf(g), NoTotals, AddTx).keys != []
  {
    GroupDomain(f, KeyOf(g), NoTotals, AddTx);
    assert Map(f, KeyOf(g))[0] in Map(f, KeyOf(g));
  }

  lemma RawBucketTotals(f: seq<Dated>, g: Granularity)
    ensures ColumnSums(BucketRows(f, g, false)) == Totals(SumBy(f, IncomeOf), SumBy(f, ExpenseOf), SumBy(f, InvestmentOf))
  {
    var grp := GroupFold(f, KeyOf(g), NoTotals, AddTx);
    EvolutionColumnTotals(f, g);
    RawRowsSums(grp.keys, grp.values);
  }

  /** The last accumulated row holds the column sums of all rows. */
  lemma LastAccumulatedRow(raw: seq<Row>)
    requires raw != []
    ensures AccumulatedRows(raw)[|raw| - 1].totals == ColumnSums(raw)
  {
    assert raw[..|raw|] == raw;
  }
}
