/** The goals screen: each goal card's completion, progress, elapsed-time bar and days left;
    the list of goals (completed ones hidden unless asked for) ordered by deadline; and the
    history of deposits and withdrawals, newest first, each row classed by its description and
    sign. Percentages are exact reals. */
module Goals {
  import opened Wrappers
  import opened Seqs
  import opened Text
  import opened Calendar
  import opened Model
  import Budgets

  /** `Math.min(100, x)`. */
  function Cap100(x: real): real
  {
    if x < 100.0 then x else 100.0
  }

  predicate IsCompleted(g: Goal)
  {
    g.currentAmount >= g.targetAmount
  }

  /** The savings bar: the share of the target saved so far, capped at 100; a goal without a
      positive target shows a full bar. */
  function Progress(g: Goal): real
  {
    if g.targetAmount > 0 then Cap100(g.currentAmount as real / g.targetAmount as real * 100.0) else 100.0
  }

  /** The bar never passes 100; for a positive target it is full exactly when the goal is
      completed, and below that it is the exact percentage saved. */
  lemma ProgressSpec(g: Goal)
    ensures Progress(g) <= 100.0
    ensures g.targetAmount <= 0 ==> Progress(g) == 100.0
    ensures g.targetAmount > 0 ==> (Progress(g) == 100.0 <==> IsCompleted(g))
    ensures g.targetAmount > 0 && !IsCompleted(g) ==>
              Progress(g) == g.currentAmount as real / g.targetAmount as real * 100.0
    ensures g.targetAmount > 0 && g.currentAmount >= 0 ==> Progress(g) >= 0.0
  {
    if g.targetAmount > 0 {
      CappedShare(g.currentAmount, g.targetAmount);
    }
  }

  /** Days from the goal's creation day to its deadline day, both taken at midnight. */
  function TotalDays(g: Goal): int
  {
    DayNumber(StartOfDay(g.deadline)) - DayNumber(StartOfDay(g.creationDate))
  }

  /** Days from the goal's creation day to today. */
  function ElapsedDays(g: Goal, now: Date): int
  {
    DayNumber(StartOfDay(now)) - DayNumber(StartOfDay(g.creationDate))
  }

  /** The time bar: the share of the time from creation to deadline that has passed, capped at
      100; when the deadline is not after the creation day it is full from the deadline on and
      empty before. The source divides two millisecond differences between midnights, which
      is the quotient of the day counts. */
  function TimeProgress(g: Goal, now: Date): real
  {
    var total := TotalDays(g);
    var elapsed := ElapsedDays(g, now);
    if total > 0 then Cap100(elapsed as real / total as real * 100.0)
    else if Time(StartOfDay(now)) >= Time(StartOfDay(g.deadline)) then 100.0
    else 0.0
  }

  /** The time bar never passes 100 and is full exactly from the deadline's day on; with no
      time between creation and deadline it is either empty or full; and from the creation day
      on it is never negative. */
  lemma TimeProgressSpec(g: Goal, now: Date)
    ensures TimeProgress(g, now) <= 100.0
    ensures TimeProgress(g, now) == 100.0 <==> DayNumber(now) >= DayNumber(g.deadline)
    ensures TotalDays(g) <= 0 ==> TimeProgress(g, now) == 0.0 || TimeProgress(g, now) == 100.0
    ensures DayNumber(g.creationDate) <= DayNumber(now) ==> TimeProgress(g, now) >= 0.0
  {
    if TotalDays(g) > 0 {
      TimeProgressRunning(g, now);
    } else {
      MidnightOrder(g.deadline, now);
    }
  }

  /** With time between creation and deadline, the bar is the capped share of days passed. */
  lemma TimeProgressRunning(g: Goal, now: Date)
    requires TotalDays(g) > 0
    ensures TimeProgress(g, now) <= 100.0
    ensures TimeProgress(g, now) == 100.0 <==> DayNumber(now) >= DayNumber(g.deadline)
    ensures DayNumber(g.creationDate) <= DayNumber(now) ==> TimeProgress(g, now) >= 0.0
  {
    CappedShare(ElapsedDays(g, now), TotalDays(g));
  }

  /** A share of a positive whole, as a percentage capped at 100: full exactly when the part
      reaches the whole, and never negative for a part that is not. */
  lemma CappedShare(part: int, whole: int)
    requires whole > 0
    ensures Cap100(part as real / whole as real * 100.0) <= 100.0
    ensures Cap100(part as real / whole as real * 100.0) == 100.0 <==> part >= whole
    ensures part >= 0 ==> Cap100(part as real / whole as real * 100.0) >= 0.0
  {
    var q := part as real / whole as real;
    Budgets.QuotientAbove(part, whole, 1.0);
    Budgets.QuotientAbove(part, whole, 0.0);
    assert q * 100.0 < 100.0 <==> q < 1.0;
  }

  /** `Math.ceil(x / b)` for an integer `x` and a positive integer `b`. */
  function CeilDiv(x: int, b: int): (r: int)
    requires b > 0
    ensures (r - 1) * b < x <= r * b
  {
    -((-x) / b)
  }

  /** Whole days left: the rounded-up quotient of the time between today's midnight and the
      deadline's midnight by the length of a day. */
  function DayDiff(g: Goal, now: Date): int
  {
    CeilDiv(Time(StartOfDay(g.deadline)) - Time(StartOfDay(now)), SecondsPerDay)
  }

  /** Both moments are midnights, so the days left are exactly the calendar days from today to
      the deadline: negative once it has passed, 0 on the day itself. */
  lemma DayDiffIsDays(g: Goal, now: Date)
    ensures DayDiff(g, now) == DayNumber(g.deadline) - DayNumber(now)
  {
    var n := DayNumber(g.deadline) - DayNumber(now);
    assert Time(StartOfDay(g.deadline)) == DayNumber(g.deadline) * SecondsPerDay;
    assert Time(StartOfDay(now)) == DayNumber(now) * SecondsPerDay;
    assert DayNumber(g.deadline) * SecondsPerDay - DayNumber(now) * SecondsPerDay == n * SecondsPerDay;
    CeilDivExact(n, SecondsPerDay);
  }

  /** A multiple of `b` divided by `b` needs no rounding. */
  lemma CeilDivExact(n: int, b: int)
    requires b > 0
    ensures CeilDiv(n * b, b) == n
  {
    var r := CeilDiv(n * b, b);
    if r > n {
      MulLess(n, r - 1, b);
    } else if r < n {
      MulLess(r, n, b);
    }
  }

  /** Multiplying by a positive number keeps a strict order. */
  lemma MulLess(x: int, y: int, b: int)
    requires b > 0 && x < y
    ensures x * b < y * b
  {
    assert y * b == x * b + (y - x) * b;
  }

  /** The filter of `filteredGoals`. */
  function Shown(showCompleted: bool): Goal -> bool
  {
    (g: Goal) => showCompleted || g.currentAmount < g.targetAmount
  }

  /** The sort comparator of `filteredGoals`: earlier deadline first. */
  predicate EarlierDeadline(a: Goal, b: Goal)
  {
    Time(a.deadline) <= Time(b.deadline)
  }

  function FilteredGoals(goals: seq<Goal>, showCompleted: bool): seq<Goal>
  {
    SortBy(Filter(goals, Shown(showCompleted)), EarlierDeadline)
  }

  /** The list shown is ordered by deadline and holds every goal when completed goals are
      shown, otherwise exactly the incomplete ones, each as often as in the input. */
  lemma FilteredGoalsSpec(goals: seq<Goal>, showCompleted: bool)
    ensures SortedBy(FilteredGoals(goals, showCompleted), EarlierDeadline)
    ensures multiset(FilteredGoals(goals, showCompleted)) == multiset(Filter(goals, Shown(showCompleted)))
    ensures showCompleted ==> multiset(FilteredGoals(goals, showCompleted)) == multiset(goals)
    ensures forall g :: g in FilteredGoals(goals, showCompleted) <==> g in goals && (showCompleted || !IsCompleted(g))
  {
    assert TotalPreorder(EarlierDeadline);
    SortBySorted(Filter(goals, Shown(showCompleted)), EarlierDeadline);
    FilterMembership(goals, Shown(showCompleted));
    if showCompleted {
      FilterAll(goals, Shown(showCompleted));
    }
    var r := FilteredGoals(goals, showCompleted);
    forall g ensures g in r <==> g in Filter(goals, Shown(showCompleted)) {
      assert g in r <==> g in multiset(r);
    }
  }

  /** The sort comparator of `sortedHistory`: more recent first. */
  predicate NewerFirst(a: GoalTransaction, b: GoalTransaction)
  {
    Time(b.date) <= Time(a.date)
  }

  /** `[...goalTransactions].sort(...)`: a sorted copy; the list itself is left as it is. */
  function SortedHistory(history: seq<GoalTransaction>): seq<GoalTransaction>
  {
    SortBy(history, NewerFirst)
  }

  /** The history is shown newest first and holds every movement exactly as often as the
      list does. */
  lemma SortedHistorySpec(history: seq<GoalTransaction>)
    ensures SortedBy(SortedHistory(history), NewerFirst)
    ensures multiset(SortedHistory(history)) == multiset(history)
  {
    assert TotalPreorder(NewerFirst);
    SortBySorted(history, NewerFirst);
  }

  /** How a history row is drawn: a change of the target, a withdrawal or a deposit. */
  datatype RowKind = TargetUpdate | Withdrawal | Deposit

  const TargetUpdateMarker: string := "Valor alvo"

  /** A row whose description mentions the target is drawn as an update whatever its sign;
      otherwise a negative amount is a withdrawal and any other a deposit. */
  function KindOf(t: GoalTransaction): RowKind
  {
    if Contains(t.description, TargetUpdateMarker) then TargetUpdate
    else if t.amount < 0 then Withdrawal
    else Deposit
  }

  /** A history row: its movement, its kind and the goal it belongs to, if that still exists. */
  datatype HistoryRow = HistoryRow(movement: GoalTransaction, kind: RowKind, goal: Option<Goal>)

  function HistoryRows(goals: seq<Goal>, history: seq<GoalTransaction>): (rows: seq<HistoryRow>)
    ensures |rows| == |history|
  {
    var sorted := SortedHistory(history);
    seq(|sorted|, i requires 0 <= i < |sorted| =>
      HistoryRow(sorted[i], KindOf(sorted[i]), Find(goals, (g: Goal) => g.id == sorted[i].goalId)))
  }

  /** Each row shows one movement of the history, newest first; it is an update exactly when
      the description contains 'Valor alvo', a withdrawal exactly when it is not and the
      amount is negative; and it names a goal with the movement's goal id whenever one exists. */
  lemma HistoryRowsSpec(goals: seq<Goal>, history: seq<GoalTransaction>, i: int)
    requires 0 <= i < |history|
    ensures var r := HistoryRows(goals, history)[i];
      && r.movement in history
      && (i > 0 ==> Time(r.movement.date) <= Time(HistoryRows(goals, history)[i - 1].movement.date))
      && (r.kind == TargetUpdate <==> exists k :: OccursAt(r.movement.description, TargetUpdateMarker, k))
      && (r.kind == Withdrawal <==> r.kind != TargetUpdate && r.movement.amount < 0)
      && (r.goal.Some? ==> r.goal.value in goals && r.goal.value.id == r.movement.goalId)
      && (r.goal.None? <==> forall g :: g in goals ==> g.id != r.movement.goalId)
  {
    SortedHistorySpec(history);
    var sorted := SortedHistory(history);
    assert sorted[i] in multiset(history);
    var f := Find(goals, (g: Goal) => g.id == sorted[i].goalId);
    if f.None? {
      forall g | g in goals ensures g.id != sorted[i].goalId {
        var j :| 0 <= j < |goals| && goals[j] == g;
      }
    }
  }
}
