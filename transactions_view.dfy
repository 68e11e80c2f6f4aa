/** The statement screen: the transactions of a chosen period, narrowed by a free-text search,
    grouped by day with the newest first. The clock `now`, the custom range's two days and the
    accent-stripping `normalizeText` are inputs. */
module TransactionsView {
  import opened Wrappers
  import opened Seqs
  import opened Text
  import opened Calendar
  import opened Model
  import opened Groups

  /** The period chooser: the current month (`'none'`), the current and the next month, the
      current month and the six after it, everything, or a custom range of days. */
  datatype FutureFilter = NoFuture | NextMonth | SixMonths | All | Custom

  /** `new Date(year, month, 1, 0, 0, 0)`: the first moment of the current month. */
  function WindowStart(now: Date): Date
  {
    MakeDate(now.year, now.month, 1, 0)
  }

  /** `new Date(year, month + extra + 1, 0, 23, 59, 59)`: the last second of the month `extra`
      months after the current one. */
  function WindowEnd(now: Date, extra: nat): Date
  {
    MakeDate(now.year, now.month + extra + 1, 0, SecondsPerDay - 1)
  }

  /** `d >= start && d <= end` on the transaction's date. */
  function Within(start: Date, end: Date): Transaction -> bool
  {
    (t: Transaction) => Time(start) <= Time(t.date) <= Time(end)
  }

  /** The months after the current one that a month-based period covers. */
  function ExtraMonths(f: FutureFilter): nat
  {
    match f
    case NextMonth => 1
    case SixMonths => 6
    case _ => 0
  }

  /** The period part of `filteredTransactions`. */
  function PeriodFilter(rows: seq<Transaction>, f: FutureFilter, now: Date, customStart: Date, customEnd: Date): seq<Transaction>
  {
    match f
    case All => rows
    case Custom => Filter(rows, Within(StartOfDay(customStart), EndOfDay(customEnd)))
    case _ => Filter(rows, Within(WindowStart(now), WindowEnd(now, ExtraMonths(f))))
  }

  /** A moment lies in the window of a month-based period exactly when its month is the
      current month or one of the `extra` months after it. */
  lemma WindowMonths(d: Date, now: Date, extra: nat)
    ensures Time(WindowStart(now)) <= Time(d) <= Time(WindowEnd(now, extra))
            <==> MonthIndex(now) <= MonthIndex(d) <= MonthIndex(now) + extra
  {
    var k := MonthIndex(now);
    var a, b := MonthStart(k), MonthStart(k + extra + 1);
    assert Time(WindowStart(now)) == a * SecondsPerDay;
    assert Time(WindowEnd(now, extra)) == (b - 1) * SecondsPerDay + SecondsPerDay - 1;
    DaysWindow(a, b, DayNumber(d), d.sec);
    DayNumberInMonth(d);
    MonthsBetween(MonthIndex(d), DayNumber(d), k, k + extra + 1);
  }

  /** A second of day `dn` lies between the first second of day `a` and the last second of day
      `b - 1` exactly when `dn` lies between `a` and `b - 1`. */
  lemma DaysWindow(a: int, b: int, dn: int, sec: int)
    requires 0 <= sec < SecondsPerDay
    ensures a * SecondsPerDay <= dn * SecondsPerDay + sec <= (b - 1) * SecondsPerDay + SecondsPerDay - 1
            <==> a <= dn < b
  {
  }

  /** A day of month `m` lies between the starts of months `lo` and `hi` exactly when `m` lies
      between `lo` and `hi`. */
  lemma MonthsBetween(m: int, dn: int, lo: int, hi: int)
    requires MonthStart(m) <= dn < MonthStart(m + 1)
    ensures MonthStart(lo) <= dn < MonthStart(hi) <==> lo <= m < hi
  {
    if m < lo {
      MonthStartMonotone(m + 1, lo);
    }
    if m >= hi {
      MonthStartMonotone(hi, m);
    }
    if lo <= m {
      MonthStartMonotone(lo, m);
    }
    if m < hi {
      MonthStartMonotone(m + 1, hi);
    }
  }

  /** Every period keeps exactly the transactions it should: `'all'` every one, `'custom'` those
      dated on a day from the start day to the end day, and the month-based periods those dated
      in the current month or in one of the months after it that they cover. */
  lemma PeriodFilterSpec(rows: seq<Transaction>, f: FutureFilter, now: Date, customStart: Date, customEnd: Date)
    ensures f == All ==> PeriodFilter(rows, f, now, customStart, customEnd) == rows
    ensures f == Custom ==>
              forall t :: t in PeriodFilter(rows, f, now, customStart, customEnd)
                <==> t in rows && !Before(StartOfDay(t.date), StartOfDay(customStart)) && !Before(StartOfDay(customEnd), StartOfDay(t.date))
    ensures f != All && f != Custom ==>
              forall t :: t in PeriodFilter(rows, f, now, customStart, customEnd)
                <==> t in rows && MonthIndex(now) <= MonthIndex(t.date) <= MonthIndex(now) + ExtraMonths(f)
  {
    var r := PeriodFilter(rows, f, now, customStart, customEnd);
    if f == Custom {
      var p := Within(StartOfDay(customStart), EndOfDay(customEnd));
      FilterMembership(rows, p);
      forall t: Transaction
        ensures p(t) <==> !Before(StartOfDay(t.date), StartOfDay(customStart)) && !Before(StartOfDay(customEnd), StartOfDay(t.date))
      {
        TimeAtOrBefore(StartOfDay(customStart), t.date);
        TimeAtOrBefore(t.date, EndOfDay(customEnd));
        DayRange(t.date, customStart, customEnd);
      }
    } else if f != All {
      var p := Within(WindowStart(now), WindowEnd(now, ExtraMonths(f)));
      FilterMembership(rows, p);
      forall t: Transaction
        ensures p(t) <==> MonthIndex(now) <= MonthIndex(t.date) <= MonthIndex(now) + ExtraMonths(f)
      {
        WindowMonths(t.date, now, ExtraMonths(f));
      }
    }
  }

  /** A later month's window ends no earlier. */
  lemma WindowEndMonotone(now: Date, a: nat, b: nat)
    requires a <= b
    ensures Time(WindowEnd(now, a)) <= Time(WindowEnd(now, b))
  {
    var k := MonthIndex(now);
    WindowEndDay(now, a);
    WindowEndDay(now, b);
    MonthStartMonotone(k + a + 1, k + b + 1);
    TimeLe(WindowEnd(now, a), WindowEnd(now, b));
  }

  /** The window of `extra` months ends on the day before month `extra + 1` after the current
      one starts, at its last second. */
  lemma WindowEndDay(now: Date, extra: nat)
    ensures DayNumber(WindowEnd(now, extra)) == MonthStart(MonthIndex(now) + extra + 1) - 1
    ensures WindowEnd(now, extra).sec == SecondsPerDay - 1
  {
    assert 12 * now.year + (now.month + extra + 1) == MonthIndex(now) + extra + 1;
  }

  /** A window that ends later holds at least what one with the same start holds. */
  lemma WithinNested(rows: seq<Transaction>, start: Date, e0: Date, e1: Date)
    requires Time(e0) <= Time(e1)
    ensures Subsequence(Filter(rows, Within(start, e0)), Filter(rows, Within(start, e1)))
  {
    FilterMonotone(rows, Within(start, e0), Within(start, e1));
    FilterSubsequence(Filter(rows, Within(start, e1)), Within(start, e0));
  }

  /** The month-based periods are nested, each an order-preserving selection of the next:
      `'none'` within `'nextMonth'` within `'sixMonths'` within `'all'`. */
  lemma PeriodsNested(rows: seq<Transaction>, now: Date, customStart: Date, customEnd: Date)
    ensures Subsequence(PeriodFilter(rows, NoFuture, now, customStart, customEnd), PeriodFilter(rows, NextMonth, now, customStart, customEnd))
    ensures Subsequence(PeriodFilter(rows, NextMonth, now, customStart, customEnd), PeriodFilter(rows, SixMonths, now, customStart, customEnd))
    ensures Subsequence(PeriodFilter(rows, SixMonths, now, customStart, customEnd), PeriodFilter(rows, All, now, customStart, customEnd))
  {
    WindowEndMonotone(now, 0, 1);
    WithinNested(rows, WindowStart(now), WindowEnd(now, 0), WindowEnd(now, 1));
    WindowEndMonotone(now, 1, 6);
    WithinNested(rows, WindowStart(now), WindowEnd(now, 1), WindowEnd(now, 6));
    FilterSubsequence(rows, Within(WindowStart(now), WindowEnd(now, 6)));
  }

  /** Two decimal digits of a number below 100, zero-padded. */
  function TwoDigits(n: nat): (r: string)
    requires n < 100
    ensures |r| == 2 && IsDigit(r[0]) && IsDigit(r[1]) && 10 * DigitValue(r[0]) + DigitValue(r[1]) == n
  {
    [DigitChar(n / 10), DigitChar(n % 10)]
  }

  /** `toLocaleTimeString('pt-BR', { hour: '2-digit', minute: '2-digit' })`: the time of day as
      `HH:MM` on a 24-hour clock. */
  function TimeLabel(d: Date): (r: string)
    ensures |r| == 5 && r[2] == ':' && IsDigit(r[0]) && IsDigit(r[1]) && IsDigit(r[3]) && IsDigit(r[4])
    ensures 10 * DigitValue(r[0]) + DigitValue(r[1]) == d.sec / 3600
    ensures 10 * DigitValue(r[3]) + DigitValue(r[4]) == d.sec % 3600 / 60
  {
    var h := TwoDigits(d.sec / 3600);
    var m := TwoDigits(d.sec % 3600 / 60);
    h + ":" + m
  }

  function IdIs(id: string): Category -> bool
  {
    (c: Category) => c.id == id
  }

  /** Whether a transaction matches an already normalised query: its normalised description,
      the normalised name of its category (when the category exists), its amount as
      `toString` prints it, its normalised payment method or its `HH:MM` time contains it. */
  predicate Matches(t: Transaction, query: string, categories: seq<Category>, normalize: string -> string)
  {
    || Contains(normalize(t.description), query)
    || (match Find(categories, IdIs(t.categoryId))
        case Some(c) => Contains(normalize(c.name), query)
        case None => false)
    || Contains(AmountToString(t.amount), query)
    || Contains(normalize(t.paymentMethod), query)
    || Contains(TimeLabel(t.date), query)
  }

  function MatchesQuery(query: string, categories: seq<Category>, normalize: string -> string): Transaction -> bool
  {
    (t: Transaction) => Matches(t, query, categories, normalize)
  }

  /** The search part of `filteredTransactions`: nothing happens for a blank query; otherwise
      the query is normalised (not trimmed) and the list filtered by it. */
  function Search(list: seq<Transaction>, searchQuery: string, categories: seq<Category>, normalize: string -> string): seq<Transaction>
  {
    if Trim(searchQuery) == [] then list
    else Filter(list, MatchesQuery(normalize(searchQuery), categories, normalize))
  }

  /** A blank query leaves the list alone; any other keeps, in their order, exactly the
      transactions of the list that match its normalised form. */
  lemma SearchSpec(list: seq<Transaction>, searchQuery: string, categories: seq<Category>, normalize: string -> string)
    ensures var r := Search(list, searchQuery, categories, normalize);
            && Subsequence(r, list)
            && (IsBlank(searchQuery) ==> r == list)
            && (!IsBlank(searchQuery) ==>
                  forall t :: t in r <==> t in list && Matches(t, normalize(searchQuery), categories, normalize))
  {
    TrimEmptyIffBlank(searchQuery);
    var p := MatchesQuery(normalize(searchQuery), categories, normalize);
    FilterSubsequence(list, p);
    FilterMembership(list, p);
    if IsBlank(searchQuery) {
      SubsequenceRefl(list);
    }
  }

  lemma {:induction false} SubsequenceRefl(s: seq<Transaction>)
    ensures Subsequence(s, s)
  {
    if s != [] {
      SubsequenceRefl(s[..|s| - 1]);
    }
  }

  /** `filteredTransactions`: the period, then the search. */
  function FilteredTransactions(rows: seq<Transaction>, f: FutureFilter, now: Date, customStart: Date, customEnd: Date,
                                searchQuery: string, categories: seq<Category>, normalize: string -> string): seq<Transaction>
  {
    Search(PeriodFilter(rows, f, now, customStart, customEnd), searchQuery, categories, normalize)
  }

  /** The day a transaction is listed under: `YYYY-MM-DD` of its local date, with the month
      counted from 1. */
  datatype DayKey = DayKey(year: int, month: int, day: int)

  function DayKeyOf(t: Transaction): DayKey
  {
    DayKey(t.date.year, t.date.month + 1, t.date.day)
  }

  /** The comparator `(a, b) => b.date - a.date`: `a` may stay before `b` when it is not older. */
  predicate NewerOrSame(a: Transaction, b: Transaction)
  {
    Time(b.date) <= Time(a.date)
  }

  lemma NewerOrSameIsTotalPreorder()
    ensures TotalPreorder(NewerOrSame)
  {
  }

  /** `acc[key].push(t)`. */
  function Push(group: seq<Transaction>, t: Transaction): seq<Transaction>
  {
    group + [t]
  }

  /** The `reduce` of `groupedTransactions` over the sorted copy: each transaction is pushed onto
      the list of its day, which is created on the day's first transaction. */
  method GroupByDay(filtered: seq<Transaction>) returns (keys: seq<DayKey>, groups: map<DayKey, seq<Transaction>>)
    ensures Grouping(keys, groups) == GroupFold(SortBy(filtered, NewerOrSame), DayKeyOf, [], Push)
  {
    keys, groups := PushByKey(SortBy(filtered, NewerOrSame), DayKeyOf);
  }

  /** The loop of `GroupByDay` for any key. */
  method PushByKey<K(==,!new)>(sorted: seq<Transaction>, key: Transaction -> K) returns (keys: seq<K>, groups: map<K, seq<Transaction>>)
    ensures Grouping(keys, groups) == GroupFold(sorted, key, [], Push)
  {
    keys, groups := [], map[];
    var i := 0;
    while i < |sorted|
      invariant 0 <= i <= |sorted|
      invariant Grouping(keys, groups) == GroupFold(sorted[..i], key, [], Push)
    {
      GroupLoopStep(sorted, i, keys, groups, key, [], Push);
      var t := sorted[i];
      var k := key(t);
      if k !in groups {
        keys := keys + [k];
        groups := groups[k := []];
      }
      groups := groups[k := Push(groups[k], t)];
      i := i + 1;
    }
    assert sorted[..i] == sorted;
  }

  /** Pushing every element onto an empty list rebuilds the sequence. */
  lemma {:induction false} FoldPush(s: seq<Transaction>)
    ensures FoldLeft(s, [], Push) == s
  {
    if s != [] {
      FoldPush(s[..|s| - 1]);
    }
  }

  /** Pushing a newest-first sequence into groups by any key gives, for each key, exactly the
      elements with that key, newest first. */
  lemma PushGroups<K(!new)>(sorted: seq<Transaction>, key: Transaction -> K)
    requires SortedBy(sorted, NewerOrSame)
    ensures var g := GroupFold(sorted, key, [], Push);
            forall k :: k in g.values ==> g.values[k] == Filter(sorted, HasKey(key, k)) && SortedBy(g.values[k], NewerOrSame)
  {
    var g := GroupFold(sorted, key, [], Push);
    GroupValues(sorted, key, [], Push);
    forall k | k in g.values
      ensures g.values[k] == Filter(sorted, HasKey(key, k)) && SortedBy(g.values[k], NewerOrSame)
    {
      FoldPush(Filter(sorted, HasKey(key, k)));
      FilterSorted(sorted, HasKey(key, k), NewerOrSame);
    }
  }

  /** Every element is in the group of its key and in no other. */
  lemma PushGroupsMembership<K(!new)>(sorted: seq<Transaction>, key: Transaction -> K)
    ensures var g := GroupFold(sorted, key, [], Push);
            forall t, k :: k in g.values && t in g.values[k] <==> t in sorted && k == key(t)
  {
    var g := GroupFold(sorted, key, [], Push);
    GroupDomain(sorted, key, [], Push);
    GroupValues(sorted, key, [], Push);
    forall t, k ensures k in g.values && t in g.values[k] <==> t in sorted && k == key(t) {
      FilterMembership(sorted, HasKey(key, k));
      if k in g.values {
        FoldPush(Filter(sorted, HasKey(key, k)));
      }
      if t in sorted && k == key(t) {
        var j :| 0 <= j < |sorted| && sorted[j] == t;
        assert Map(sorted, key)[j] == k;
      }
    }
  }

  /** The grouping by any key of a newest-first arrangement of `filtered`. */
  lemma GroupsOfSorted<K(!new)>(filtered: seq<Transaction>, sorted: seq<Transaction>, key: Transaction -> K)
    requires multiset(sorted) == multiset(filtered) && SortedBy(sorted, NewerOrSame)
    ensures var g := GroupFold(sorted, key, [], Push);
            && g.keys == Dedup(Map(sorted, key))
            && (forall k :: k in g.values ==>
                  SortedBy(g.values[k], NewerOrSame) && multiset(g.values[k]) == multiset(Filter(filtered, HasKey(key, k))))
            && (forall t, k :: k in g.values && t in g.values[k] <==> t in filtered && k == key(t))
  {
    var g := GroupFold(sorted, key, [], Push);
    GroupKeys(sorted, key, [], Push);
    PushGroups(sorted, key);
    PushGroupsMembership(sorted, key);
    forall k | k in g.values
      ensures multiset(g.values[k]) == multiset(Filter(filtered, HasKey(key, k)))
    {
      FilterPermutation(sorted, filtered, HasKey(key, k));
    }
    forall t ensures t in sorted <==> t in filtered {
      assert t in sorted <==> t in multiset(sorted);
    }
  }

  /** The grouping lists each day once, in the order of the days' newest transactions, and
      each group holds exactly the filtered transactions of its day (so none of another day),
      newest first. */
  lemma GroupedTransactionsSpec(filtered: seq<Transaction>)
    ensures var sorted := SortBy(filtered, NewerOrSame);
            var g := GroupFold(sorted, DayKeyOf, [], Push);
            && g.keys == Dedup(Map(sorted, DayKeyOf))
            && (forall k :: k in g.values ==>
                  SortedBy(g.values[k], NewerOrSame) && multiset(g.values[k]) == multiset(Filter(filtered, HasKey(DayKeyOf, k))))
  {
    NewerOrSameIsTotalPreorder();
    SortBySorted(filtered, NewerOrSame);
    GroupsOfSorted(filtered, SortBy(filtered, NewerOrSame), DayKeyOf);
  }

  /** Every filtered transaction is in the group of its day. */
  lemma GroupedTransactionsCover(filtered: seq<Transaction>)
    ensures var g := GroupFold(SortBy(filtered, NewerOrSame), DayKeyOf, [], Push);
            forall t, k :: t in filtered && k == DayKeyOf(t) ==> k in g.values && t in g.values[k]
  {
    NewerOrSameIsTotalPreorder();
    SortBySorted(filtered, NewerOrSame);
    GroupsOfSorted(filtered, SortBy(filtered, NewerOrSame), DayKeyOf);
  }
}
