/** Budgets: the amount spent per category and, for each budget, a progress bar whose colour
    turns yellow above 80% of the limit and red above 100%. The percentage is computed as a
    JavaScript number, so a zero limit gives an infinite or undefined (NaN) percentage. */
module Budgets {
  import opened Wrappers
  import opened Seqs
  import opened Model

  /** `spentByCategory`: a dictionary filled by a loop over the transactions that adds each
      expense's amount to the entry of its category, starting from 0. */
  method SpentByCategory(rows: seq<Transaction>) returns (spent: map<string, int>)
    ensures spent == SpentFold(rows)
  {
    spent := map[];
    var i := 0;
    while i < |rows|
      invariant 0 <= i <= |rows|
      invariant spent == SpentFold(rows[..i])
    {
      var t := rows[i];
      assert rows[..i + 1][..i] == rows[..i];
      if t.ttype == Despesa {
        spent := spent[t.categoryId := Spent(spent, t.categoryId) + t.amount];
      }
      i := i + 1;
    }
    assert rows[..i] == rows;
  }

  /** `acc[id] || 0`: the entry of a category, 0 when it has none. */
  function Spent(spent: map<string, int>, id: string): int
  {
    if id in spent then spent[id] else 0
  }

  /** The dictionary the loop of `SpentByCategory` builds over `rows`. */
  function SpentFold(rows: seq<Transaction>): map<string, int>
  {
    if rows == [] then map[]
    else
      var acc := SpentFold(rows[..|rows| - 1]);
      var t := rows[|rows| - 1];
      if t.ttype == Despesa then acc[t.categoryId := Spent(acc, t.categoryId) + t.amount] else acc
  }

  function ExpenseIn(id: string): Transaction -> bool
  {
    (t: Transaction) => t.ttype == Despesa && t.categoryId == id
  }

  /** A category has an entry exactly when some expense is filed under it. */
  lemma {:induction false} SpentFoldDomain(rows: seq<Transaction>, id: string)
    ensures id in SpentFold(rows) <==> exists i :: 0 <= i < |rows| && ExpenseIn(id)(rows[i])
  {
    if rows != [] {
      var init := rows[..|rows| - 1];
      SpentFoldDomain(init, id);
      if exists i :: 0 <= i < |rows| && ExpenseIn(id)(rows[i]) {
        var i :| 0 <= i < |rows| && ExpenseIn(id)(rows[i]);
        if i < |rows| - 1 {
          assert init[i] == rows[i];
        }
      }
      if exists i :: 0 <= i < |init| && ExpenseIn(id)(init[i]) {
        var i :| 0 <= i < |init| && ExpenseIn(id)(init[i]);
        assert rows[i] == init[i];
      }
    }
  }

  /** The amount looked up for any category (0 without an entry) is the sum of its expenses. */
  lemma {:induction false} SpentFoldSum(rows: seq<Transaction>, id: string)
    ensures Spent(SpentFold(rows), id) == SumBy(Filter(rows, ExpenseIn(id)), Amount)
  {
    if rows != [] {
      var init := rows[..|rows| - 1];
      var t := rows[|rows| - 1];
      SpentFoldSum(init, id);
      assert Filter(rows, ExpenseIn(id)) == Filter(init, ExpenseIn(id)) + if ExpenseIn(id)(t) then [t] else [];
      SumByAppend(Filter(init, ExpenseIn(id)), if ExpenseIn(id)(t) then [t] else [], Amount);
    }
  }

  /** The percentage `(spent / limit) * 100` as a JavaScript number. */
  datatype Percent = Finite(value: real) | PosInfinity | NegInfinity | NaN

  function ProgressOf(spent: int, limit: int): Percent
  {
    if limit != 0 then Finite(spent as real / limit as real * 100.0)
    else if spent > 0 then PosInfinity
    else if spent < 0 then NegInfinity
    else NaN
  }

  datatype Colour = Red | Yellow | Green

  /** `progress > 100 ? red : progress > 80 ? yellow : green`; every comparison with NaN or
      minus infinity is false. */
  function ColourOf(p: Percent): Colour
  {
    match p
    case PosInfinity => Red
    case Finite(v) => if v > 100.0 then Red else if v > 80.0 then Yellow else Green
    case _ => Green
  }

  /** `Math.min(progress, 100)`: the width of the bar. */
  function WidthOf(p: Percent): (w: Percent)
    ensures w.Finite? ==> w.value <= 100.0
    ensures w.Finite? || w.NegInfinity? || w.NaN?
  {
    match p
    case Finite(v) => Finite(if v < 100.0 then v else 100.0)
    case PosInfinity => Finite(100.0)
    case _ => p
  }

  /** For a positive limit the colour is red exactly when more than the limit was spent, yellow
      when more than 80% but not more than the limit was spent, and green otherwise; and the
      bar's width is the percentage, capped at 100. */
  lemma ColourForPositiveLimit(spent: int, limit: int)
    requires limit > 0
    ensures ColourOf(ProgressOf(spent, limit)) == Red <==> spent > limit
    ensures ColourOf(ProgressOf(spent, limit)) == Yellow <==> 4 * limit < 5 * spent <= 5 * limit
    ensures WidthOf(ProgressOf(spent, limit)) == Finite(if spent < limit then spent as real / limit as real * 100.0 else 100.0)
  {
    var q := spent as real / limit as real;
    QuotientAbove(spent, limit, 1.0);
    QuotientAbove(spent, limit, 0.8);
    assert q * 100.0 > 100.0 <==> q > 1.0;
    assert q * 100.0 > 80.0 <==> q > 0.8;
    assert q * 100.0 < 100.0 <==> q < 1.0;
    assert spent as real > 0.8 * limit as real <==> 5 * spent > 4 * limit;
  }

  /** For a positive divisor, a quotient exceeds (falls below) `c` exactly when the dividend
      exceeds (falls below) `c` times the divisor. */
  lemma QuotientAbove(a: int, b: int, c: real)
    requires b > 0
    ensures a as real / b as real > c <==> a as real > c * b as real
    ensures a as real / b as real < c <==> a as real < c * b as real
  {
    var q := a as real / b as real;
    assert q * b as real == a as real;
    if q > c {
      assert (q - c) * b as real > 0.0;
    }
    if a as real > c * b as real {
      assert (q - c) * b as real > 0.0;
    }
    if q < c {
      assert (c - q) * b as real > 0.0;
    }
    if a as real < c * b as real {
      assert (c - q) * b as real > 0.0;
    }
  }

  /** With a zero limit any spending shows red and a full bar, and no spending shows green. */
  lemma ColourForZeroLimit(spent: int)
    ensures ColourOf(ProgressOf(spent, 0)) == if spent > 0 then Red else Green
    ensures spent > 0 ==> WidthOf(ProgressOf(spent, 0)) == Finite(100.0)
  {
  }

  /** What a budget card shows: its category, the amount spent, the percentage, the colour and
      the bar's width. */
  datatype BudgetView = BudgetView(category: Category, spent: int, limit: int, progress: Percent, colour: Colour, width: Percent)

  function HasId(id: string): Category -> bool
  {
    (c: Category) => c.id == id
  }

  /** `BudgetCard`: nothing when the budget's category is unknown. */
  function BudgetCard(categories: seq<Category>, budget: Budget, spent: int): Option<BudgetView>
  {
    match Find(categories, HasId(budget.categoryId))
    case None => None
    case Some(c) =>
      var p := ProgressOf(spent, budget.limit);
      Some(BudgetView(c, spent, budget.limit, p, ColourOf(p), WidthOf(p)))
  }

  /** The card of every budget, given the amounts spent per category. */
  function BudgetCards(categories: seq<Category>, budgets: seq<Budget>, spent: map<string, int>): (r: seq<Option<BudgetView>>)
    ensures |r| == |budgets|
  {
    if budgets == [] then []
    else BudgetCards(categories, budgets[..|budgets| - 1], spent)
         + [BudgetCard(categories, budgets[|budgets| - 1], Spent(spent, budgets[|budgets| - 1].categoryId))]
  }

  /** A budget renders exactly when some category has its id, and then shows the first such
      category with the sum of the expenses filed under the budget's category against its limit. */
  lemma {:induction false} BudgetCardsSpec(categories: seq<Category>, budgets: seq<Budget>, rows: seq<Transaction>, i: int)
    requires 0 <= i < |budgets|
    ensures var r := BudgetCards(categories, budgets, SpentFold(rows))[i];
            && (r.None? <==> forall c :: c in categories ==> c.id != budgets[i].categoryId)
            && (r.Some? ==> r.value.category in categories && r.value.category.id == budgets[i].categoryId
                            && r.value.spent == SumBy(Filter(rows, ExpenseIn(budgets[i].categoryId)), Amount)
                            && r.value.limit == budgets[i].limit)
  {
    if i < |budgets| - 1 {
      BudgetCardsSpec(categories, budgets[..|budgets| - 1], rows, i);
    }
    SpentFoldSum(rows, budgets[i].categoryId);
    var r := Find(categories, HasId(budgets[i].categoryId));
    if r.None? {
      forall c | c in categories ensures c.id != budgets[i].categoryId {
        var j :| 0 <= j < |categories| && categories[j] == c;
      }
    }
  }
}
