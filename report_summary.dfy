/** The net-worth line and the category summary of the reports screen, and its sort header. */
module ReportSummary {
  import opened Wrappers
  import opened Seqs
  import opened Groups
  import opened Calendar
  import opened Model
  import opened Billing
  import opened Reports

  /** What a transaction does to the net-worth line: income adds, an expense other than a bill
      payment subtracts, investments are not counted. */
  function NetWorthEffect(d: Dated): int
  {
    if d.t.ttype == Receita then d.t.amount
    else if d.t.ttype == Despesa && !d.t.isCardBillPayment then -d.t.amount
    else 0
  }

  /** All transactions (bill payments and rows outside the range included), by effective date. */
  function NetWorthRows(rows: seq<Transaction>, cd: int): seq<Dated>
  {
    SortBy(Map(rows, WithEffectiveDate(cd)), EffLe)
  }

  /** Every transaction appears once, with its effective date, in effective-date order. */
  lemma NetWorthRowsSpec(rows: seq<Transaction>, cd: int)
    ensures var r := NetWorthRows(rows, cd);
            && SortedBy(r, EffLe)
            && multiset(r) == multiset(Map(rows, WithEffectiveDate(cd)))
            && (forall i :: 0 <= i < |r| ==> r[i].eff == EffectiveDate(r[i].t, cd) && r[i].t in rows)
  {
    var mapped := Map(rows, WithEffectiveDate(cd));
    EffLeIsTotalPreorder();
    SortBySorted(mapped, EffLe);
    var r := SortBy(mapped, EffLe);
    forall i | 0 <= i < |r| ensures r[i].eff == EffectiveDate(r[i].t, cd) && r[i].t in rows {
      assert r[i] in multiset(mapped);
      var j :| 0 <= j < |mapped| && mapped[j] == r[i];
    }
  }

  /** The `bucketValues` dictionary after the loop has run over `s`: for every row kept by
      `keep` its label's value becomes the running net worth after that row. */
  function NetWorthFold(s: seq<Dated>, keep: Dated -> bool, key: Dated -> GroupKey): (r: Grouping<GroupKey, int>)
    ensures forall k :: k in r.keys <==> k in r.values
  {
    if s == [] then Grouping([], map[])
    else
      var r := NetWorthFold(s[..|s| - 1], keep, key);
      var x := s[|s| - 1];
      if keep(x) then
        var k := key(x);
        Grouping(if k in r.values then r.keys else r.keys + [k], r.values[k := SumBy(s, NetWorthEffect)])
      else r
  }

  /** The `netWorthData` loop: `currentNetWorth` runs over every row, and a row in the range
      records it under its label. */
  method NetWorthBuckets(sorted: seq<Dated>, startDay: Date, endDay: Date, g: Granularity)
    returns (keys: seq<GroupKey>, values: map<GroupKey, int>)
    ensures Grouping(keys, values) == NetWorthFold(sorted, InRangeOf(startDay, endDay), KeyOf(g))
  {
    var currentNetWorth := 0;
    keys := [];
    values := map[];
    var i := 0;
    while i < |sorted|
      invariant 0 <= i <= |sorted|
      invariant currentNetWorth == SumBy(sorted[..i], NetWorthEffect)
      invariant Grouping(keys, values) == NetWorthFold(sorted[..i], InRangeOf(startDay, endDay), KeyOf(g))
    {
      var t := sorted[i];
      assert sorted[..i + 1][..i] == sorted[..i];
      if t.t.ttype == Receita {
        currentNetWorth := currentNetWorth + t.t.amount;
      } else if t.t.ttype == Despesa && !t.t.isCardBillPayment {
        currentNetWorth := currentNetWorth - t.t.amount;
      }
      if InRange(t, startDay, endDay) {
        var key := KeyOf(g)(t);
        if key !in values {
          keys := keys + [key];
        }
        values := values[key := currentNetWorth];
      }
      i := i + 1;
    }
    assert sorted[..|sorted|] == sorted;
  }

  /** The rows kept with label `k`. */
  function InBucket(keep: Dated -> bool, key: Dated -> GroupKey, k: GroupKey): Dated -> bool
  {
    (d: Dated) => keep(d) && key(d) == k
  }

  /** A label has a value exactly when some kept row has it, and its value is the running net
      worth, over all rows from the first one, up to and including the last kept row with that
      label. */
  lemma {:induction false} NetWorthSpec(s: seq<Dated>, keep: Dated -> bool, key: Dated -> GroupKey)
    ensures var r := NetWorthFold(s, keep, key);
            forall k :: k in r.values <==> LastWhere(s, InBucket(keep, key, k)) >= 0
    ensures var r := NetWorthFold(s, keep, key);
            forall k :: k in r.values ==>
              r.values[k] == SumBy(s[..LastWhere(s, InBucket(keep, key, k)) + 1], NetWorthEffect)
  {
    if s != [] {
      var init := s[..|s| - 1];
      NetWorthSpec(init, keep, key);
      var r := NetWorthFold(s, keep, key);
      forall k ensures (k in r.values <==> LastWhere(s, InBucket(keep, key, k)) >= 0)
                       && (k in r.values ==>
                             r.values[k] == SumBy(s[..LastWhere(s, InBucket(keep, key, k)) + 1], NetWorthEffect))
      {
        var j := LastWhere(s, InBucket(keep, key, k));
        if j < |s| - 1 {
          assert j == LastWhere(init, InBucket(keep, key, k));
          assert s[..j + 1] == init[..j + 1];
        } else {
          assert s[..j + 1] == s;
        }
      }
    }
  }

  /** `netWorthData`. */
  function NetWorthData(rows: seq<Transaction>, cd: int, startDay: Date, endDay: Date, g: Granularity): Grouping<GroupKey, int>
  {
    NetWorthFold(NetWorthRows(rows, cd), InRangeOf(startDay, endDay), KeyOf(g))
  }

  /** The label a transaction is summed under: the name of its category, or "Outros" when the
      category is unknown or its name is empty. */
  function CategoryName(categories: seq<Category>, t: Transaction): string
  {
    match Find(categories, (c: Category) => c.id == t.categoryId)
    case Some(c) => if c.name != "" then c.name else "Outros"
    case None => "Outros"
  }

  /** The label is never empty: it is the non-empty name of a category with the transaction's
      id, or "Outros". */
  lemma CategoryNameSpec(categories: seq<Category>, t: Transaction)
    ensures CategoryName(categories, t) != ""
    ensures (exists i :: 0 <= i < |categories| && categories[i].id == t.categoryId
                         && categories[i].name != "" && CategoryName(categories, t) == categories[i].name)
            || CategoryName(categories, t) == "Outros"
  {
  }

  function NameKey(categories: seq<Category>): Dated -> string
  {
    (d: Dated) => CategoryName(categories, d.t)
  }

  function AddAmount(v: int, d: Dated): int
  {
    v + d.t.amount
  }

  function DatedAmount(d: Dated): int
  {
    d.t.amount
  }

  /** The rows of the category summary: no bill payments, effective date in range, and of the
      chosen type. */
  function SummaryRows(rows: seq<Transaction>, cd: int, startDay: Date, endDay: Date, categoryType: TransactionType): seq<Dated>
  {
    Filter(Map(Filter(rows, NotBillPayment), WithEffectiveDate(cd)),
           (d: Dated) => InRange(d, startDay, endDay) && d.t.ttype == categoryType)
  }

  /** The `dataMap` loop of `categorySummaryData`: one running total per label, labels in the
      order they are first met. */
  method TotalsByLabel(filtered: seq<Dated>, labelOf: Dated -> string) returns (names: seq<string>, totals: map<string, int>)
    ensures Grouping(names, totals) == GroupFold(filtered, labelOf, 0, AddAmount)
  {
    names := [];
    totals := map[];
    var i := 0;
    while i < |filtered|
      invariant 0 <= i <= |filtered|
      invariant Grouping(names, totals) == GroupFold(filtered[..i], labelOf, 0, AddAmount)
    {
      GroupLoopStep(filtered, i, names, totals, labelOf, 0, AddAmount);
      var d := filtered[i];
      var name := labelOf(d);
      if name !in totals {
        totals := totals[name := 0];
        names := names + [name];
      }
      totals := totals[name := AddAmount(totals[name], d)];
      i := i + 1;
    }
    assert filtered[..|filtered|] == filtered;
  }

  /** The totals of `categorySummaryData`, one per category label. */
  method CategoryTotals(filtered: seq<Dated>, categories: seq<Category>) returns (names: seq<string>, totals: map<string, int>)
    ensures Grouping(names, totals) == GroupFold(filtered, NameKey(categories), 0, AddAmount)
  {
    names, totals := TotalsByLabel(filtered, NameKey(categories));
  }

  lemma {:induction false} FoldAmounts(s: seq<Dated>)
    ensures FoldLeft(s, 0, AddAmount) == SumBy(s, DatedAmount)
  {
    if s != [] {
      FoldAmounts(s[..|s| - 1]);
    }
  }

  function Valor(v: int): int
  {
    v
  }

  /** Each label's total is the sum of the amounts filed under it, the labels are distinct, and
      the totals add up to the sum of all amounts. */
  lemma CategoryTotalsSpec(filtered: seq<Dated>, categories: seq<Category>)
    ensures var grp := GroupFold(filtered, NameKey(categories), 0, AddAmount);
            && NoDuplicates(grp.keys)
            && (forall n :: n in grp.values ==> grp.values[n] == SumBy(Filter(filtered, HasKey(NameKey(categories), n)), DatedAmount))
            && SumValues(grp.keys, grp.values, Valor) == SumBy(filtered, DatedAmount)
  {
    var grp := GroupFold(filtered, NameKey(categories), 0, AddAmount);
    GroupKeys(filtered, NameKey(categories), 0, AddAmount);
    GroupValues(filtered, NameKey(categories), 0, AddAmount);
    forall n | n in grp.values ensures grp.values[n] == SumBy(Filter(filtered, HasKey(NameKey(categories), n)), DatedAmount) {
      FoldAmounts(Filter(filtered, HasKey(NameKey(categories), n)));
    }
    GroupColumnTotal(filtered, NameKey(categories), 0, AddAmount, Valor, DatedAmount);
  }

  datatype SortKey = Name | ValorKey
  datatype Direction = Asc | Desc
  datatype SortConfig = SortConfig(key: SortKey, direction: Direction)

  /** The summary starts sorted by value, largest first. */
  const InitialSort: SortConfig := SortConfig(ValorKey, Desc)

  /** `handleSort`: clicking a header sorts by it, ascending only when it was already the sort
      key in descending order. */
  function HandleSort(prev: SortConfig, key: SortKey): SortConfig
  {
    SortConfig(key, if prev.key == key && prev.direction == Desc then Asc else Desc)
  }

  /** Clicking a header always sorts by it; clicking a new header starts descending, and
      clicking the same header twice flips the direction each time. */
  lemma HandleSortSpec(prev: SortConfig, key: SortKey)
    ensures HandleSort(prev, key).key == key
    ensures prev.key != key ==> HandleSort(prev, key).direction == Desc
    ensures HandleSort(HandleSort(prev, key), key).direction != HandleSort(prev, key).direction
  {
  }

  datatype SummaryRow = SummaryRow(name: string, valor: int)

  function SummaryRowsOf(names: seq<string>, totals: map<string, int>): (r: seq<SummaryRow>)
    requires forall n :: n in names ==> n in totals
    ensures |r| == |names|
  {
    seq(|names|, i requires 0 <= i < |names| => SummaryRow(names[i], totals[names[i]]))
  }

  /** The comparator of `result.sort`: `localeCompare` of the names (given as `nameLe`) or the
      difference of the values, reversed for a descending sort. */
  function SummaryLe(config: SortConfig, nameLe: (string, string) -> bool): (SummaryRow, SummaryRow) -> bool
  {
    match (config.key, config.direction)
    case (Name, Asc) => (a: SummaryRow, b: SummaryRow) => nameLe(a.name, b.name)
    case (Name, Desc) => (a: SummaryRow, b: SummaryRow) => nameLe(b.name, a.name)
    case (ValorKey, Asc) => (a: SummaryRow, b: SummaryRow) => a.valor <= b.valor
    case (ValorKey, Desc) => (a: SummaryRow, b: SummaryRow) => b.valor <= a.valor
  }

  /** For a name collation that is a total preorder, every header gives a total preorder. */
  lemma SummaryLeIsTotalPreorder(config: SortConfig, nameLe: (string, string) -> bool)
    requires TotalPreorder(nameLe)
    ensures TotalPreorder(SummaryLe(config, nameLe))
  {
    var le := SummaryLe(config, nameLe);
    forall a: SummaryRow, b: SummaryRow, c: SummaryRow ensures (le(a, b) || le(b, a)) && (le(a, b) && le(b, c) ==> le(a, c)) {
      assert nameLe(a.name, b.name) || nameLe(b.name, a.name);
      assert nameLe(a.name, b.name) && nameLe(b.name, c.name) ==> nameLe(a.name, c.name);
      assert nameLe(c.name, b.name) && nameLe(b.name, a.name) ==> nameLe(c.name, a.name);
    }
  }

  /** `categorySummaryData`: the label totals, sorted by the chosen header. */
  function CategorySummary(rows: seq<Transaction>, cd: int, startDay: Date, endDay: Date, categoryType: TransactionType,
                           categories: seq<Category>, config: SortConfig, nameLe: (string, string) -> bool): seq<SummaryRow>
  {
    var grp := GroupFold(SummaryRows(rows, cd, startDay, endDay, categoryType), NameKey(categories), 0, AddAmount);
    SortBy(SummaryRowsOf(grp.keys, grp.values), SummaryLe(config, nameLe))
  }

  /** The summary is ordered by the chosen header and holds exactly one row per label. */
  lemma CategorySummarySpec(rows: seq<Transaction>, cd: int, startDay: Date, endDay: Date, categoryType: TransactionType,
                            categories: seq<Category>, config: SortConfig, nameLe: (string, string) -> bool)
    requires TotalPreorder(nameLe)
    ensures var grp := GroupFold(SummaryRows(rows, cd, startDay, endDay, categoryType), NameKey(categories), 0, AddAmount);
            var r := CategorySummary(rows, cd, startDay, endDay, categoryType, categories, config, nameLe);
            && SortedBy(r, SummaryLe(config, nameLe))
            && multiset(r) == multiset(SummaryRowsOf(grp.keys, grp.values))
  {
    var grp := GroupFold(SummaryRows(rows, cd, startDay, endDay, categoryType), NameKey(categories), 0, AddAmount);
    SummaryLeIsTotalPreorder(config, nameLe);
    SortBySorted(SummaryRowsOf(grp.keys, grp.values), SummaryLe(config, nameLe));
  }
}
