/** The figures the dashboard derives from a snapshot of the ledger: income and
    expense totals, net savings, the five-bucket category breakdown, the
    savings-goal progress and the month-by-month series. */
module Aggregation {
  import opened Entries

  /** The breakdown's buckets, in the order the chart labels them. */
  const Categories: seq<string> := ["Food", "Rent", "Travel", "Entertainment", "Other"]

  /** Position of "Other", which also receives every category outside the list. */
  const OtherBucket: nat := 4

  /** The bucket an expense's category adds to. */
  function Bucket(category: string): (k: nat)
    ensures k < |Categories|
    ensures category in Categories ==> Categories[k] == category
    ensures category !in Categories ==> k == OtherBucket
  {
    if category == "Food" then 0
    else if category == "Rent" then 1
    else if category == "Travel" then 2
    else if category == "Entertainment" then 3
    else OtherBucket
  }

  /** Which entries a sum takes in. */
  datatype Selection =
    | Flow(income: bool)                     // all income entries, or all expense entries
    | CategoryExpenses(bucket: nat)          // the expense entries that fall into one bucket
    | MonthFlow(month: Month, income: bool)  // the income, or expense, entries of one month

  predicate Selects(sel: Selection, t: Transaction) {
    match sel
    case Flow(income) => IsIncome(t) == income
    case CategoryExpenses(k) => !IsIncome(t) && Bucket(t.category) == k
    case MonthFlow(m, income) => IsIncome(t) == income && MonthOf(t.date) == m
  }

  /** What one entry adds to a selection's sum. */
  function Share(t: Transaction, sel: Selection): real {
    if Selects(sel, t) then t.amount else 0.0
  }

  /** The sum of the amounts of the selected entries, accumulated in ledger order. */
  function Sum(ts: seq<Transaction>, sel: Selection): real
    decreases |ts|
  {
    if ts == [] then 0.0 else Sum(ts[..|ts| - 1], sel) + Share(ts[|ts| - 1], sel)
  }

  /** Sums are additive over disjoint parts of a ledger. */
  lemma {:induction false} SumConcat(a: seq<Transaction>, b: seq<Transaction>, sel: Selection)
    ensures Sum(a + b, sel) == Sum(a, sel) + Sum(b, sel)
    decreases |b|
  {
    if b == [] {
      assert a + b == a;
    } else {
      var b' := b[..|b| - 1];
      assert (a + b)[..|a + b| - 1] == a + b';
      SumConcat(a, b', sel);
    }
  }

  /** Sums do not depend on the order of the entries, so sorting the ledger for
      display changes none of the figures derived from it. */
  lemma {:induction false} SumPermutation(a: seq<Transaction>, b: seq<Transaction>, sel: Selection)
    requires multiset(a) == multiset(b)
    ensures Sum(a, sel) == Sum(b, sel)
    decreases |a|
  {
    if a == [] {
      assert |b| == |multiset(b)| == 0;
    } else {
      var a' := a[..|a| - 1];
      var x := a[|a| - 1];
      assert a == a' + [x];
      assert x in multiset(b);
      var j :| 0 <= j < |b| && b[j] == x;
      var rest := RemoveAt(b, j);
      assert multiset(a') == multiset(rest) by {
        assert multiset(a') + multiset{x} == multiset(rest) + multiset{x};
        assert multiset(a') == multiset(a') + multiset{x} - multiset{x};
        assert multiset(rest) == multiset(rest) + multiset{x} - multiset{x};
      }
      SumPermutation(a', rest, sel);
      SumRemoveAt(b, j, sel);
    }
  }

  /** The sequence without its j-th entry. */
  function RemoveAt(b: seq<Transaction>, j: nat): (r: seq<Transaction>)
    requires j < |b|
    ensures multiset(r) + multiset{b[j]} == multiset(b)
  {
    assert b == b[..j] + [b[j]] + b[j + 1..];
    b[..j] + b[j + 1..]
  }

  lemma SumRemoveAt(b: seq<Transaction>, j: nat, sel: Selection)
    requires j < |b|
    ensures Sum(b, sel) == Sum(RemoveAt(b, j), sel) + Share(b[j], sel)
  {
    var x := b[j];
    assert b == b[..j] + ([x] + b[j + 1..]);
    SumConcat(b[..j], [x] + b[j + 1..], sel);
    SumConcat([x], b[j + 1..], sel);
    SumConcat(b[..j], b[j + 1..], sel);
    assert [x][..0] == [];
  }

  /** Every expense falls into exactly one bucket, so the five buckets together
      hold the expense total, and income falls into none of them. */
  lemma {:induction false} BucketsPartitionExpenses(ts: seq<Transaction>)
    ensures Sum(ts, CategoryExpenses(0)) + Sum(ts, CategoryExpenses(1)) + Sum(ts, CategoryExpenses(2))
          + Sum(ts, CategoryExpenses(3)) + Sum(ts, CategoryExpenses(4)) == Sum(ts, Flow(false))
    decreases |ts|
  {
    if ts != [] {
      BucketsPartitionExpenses(ts[..|ts| - 1]);
    }
  }

  /** An income entry anywhere in the ledger leaves the breakdown unchanged. */
  lemma IncomeLeavesBreakdown(a: seq<Transaction>, t: Transaction, b: seq<Transaction>, k: nat)
    requires IsIncome(t)
    ensures Sum(a + [t] + b, CategoryExpenses(k)) == Sum(a + b, CategoryExpenses(k))
  {
    SumConcat(a + [t], b, CategoryExpenses(k));
    SumConcat(a, [t], CategoryExpenses(k));
    SumConcat(a, b, CategoryExpenses(k));
    assert [t][..0] == [];
  }

  /** An expense whose category is not one of the five adds its amount to
      "Other" and to no other bucket. */
  lemma UnknownCategoryGoesToOther(a: seq<Transaction>, t: Transaction, b: seq<Transaction>, k: nat)
    requires !IsIncome(t) && t.category !in Categories
    ensures Sum(a + [t] + b, CategoryExpenses(k))
         == Sum(a + b, CategoryExpenses(k)) + (if k == OtherBucket then t.amount else 0.0)
  {
    SumConcat(a + [t], b, CategoryExpenses(k));
    SumConcat(a, [t], CategoryExpenses(k));
    SumConcat(a, b, CategoryExpenses(k));
    assert [t][..0] == [];
  }

  /** The sum of a list of numbers. */
  function SumOf(xs: seq<real>): real {
    if xs == [] then 0.0 else xs[0] + SumOf(xs[1..])
  }

  lemma SumOfFive(xs: seq<real>)
    requires |xs| == 5
    ensures SumOf(xs) == xs[0] + xs[1] + xs[2] + xs[3] + xs[4]
  {
    assert xs[4..][1..] == [];
    assert SumOf(xs[4..]) == xs[4];
    assert xs[3..][1..] == xs[4..];
    assert SumOf(xs[3..]) == xs[3] + xs[4];
    assert xs[2..][1..] == xs[3..];
    assert SumOf(xs[2..]) == xs[2] + xs[3] + xs[4];
    assert xs[1..][1..] == xs[2..];
    assert SumOf(xs[1..]) == xs[1] + xs[2] + xs[3] + xs[4];
  }

  /** Progress towards the savings goal in percent: net savings over the goal,
      capped at 100 and not floored, so it is negative while net savings are. */
  function GoalProgress(netSavings: real, goal: real): (p: real)
    requires goal != 0.0
    ensures p <= 100.0
    ensures p == 100.0 || p == netSavings / goal * 100.0
    ensures goal > 0.0 ==> (p == 100.0 <==> netSavings >= goal)
    ensures goal > 0.0 ==> (p < 0.0 <==> netSavings < 0.0)
  {
    var ratio := netSavings / goal * 100.0;
    RatioFacts(netSavings, goal);
    if ratio < 100.0 then ratio else 100.0
  }

  /** For a positive goal the percentage reaches 100 exactly when net savings
      reach the goal, and has the sign of net savings. */
  lemma RatioFacts(netSavings: real, goal: real)
    requires goal != 0.0
    ensures goal > 0.0 ==> (netSavings / goal * 100.0 >= 100.0 <==> netSavings >= goal)
    ensures goal > 0.0 ==> (netSavings / goal * 100.0 < 0.0 <==> netSavings < 0.0)
  {
    if goal > 0.0 {
      var q := netSavings / goal;
      assert q * goal == netSavings;
      assert q >= 1.0 ==> netSavings >= goal;
      assert q < 1.0 ==> netSavings < goal;
      assert q < 0.0 ==> netSavings < 0.0;
      assert q >= 0.0 ==> netSavings >= 0.0;
    }
  }

  /** The numbers the dashboard shows and the category chart's data. */
  datatype Dashboard = Dashboard(
    totalIncome: real,
    totalExpenses: real,
    netSavings: real,
    progress: real,
    chartLabels: seq<string>,
    chartValues: seq<real>)

  /** One pass over the ledger accumulating the totals and the breakdown. */
  method ComputeDashboard(ts: seq<Transaction>, savingsGoal: real) returns (d: Dashboard)
    requires savingsGoal != 0.0
    ensures d.totalIncome == Sum(ts, Flow(true))
    ensures d.totalExpenses == Sum(ts, Flow(false))
    ensures d.netSavings == d.totalIncome - d.totalExpenses
    ensures d.progress == GoalProgress(d.netSavings, savingsGoal) && d.progress <= 100.0
    ensures d.chartLabels == Categories && |d.chartValues| == |Categories|
    ensures forall k :: 0 <= k < |Categories| ==> d.chartValues[k] == Sum(ts, CategoryExpenses(k))
    ensures SumOf(d.chartValues) == d.totalExpenses
    ensures ts == [] ==> d.totalIncome == 0.0 && d.totalExpenses == 0.0 && d.netSavings == 0.0
                         && d.chartValues == [0.0, 0.0, 0.0, 0.0, 0.0]
  {
    var totalIncome, totalExpenses := 0.0, 0.0;
    var categoryData := [0.0, 0.0, 0.0, 0.0, 0.0];
    for i := 0 to |ts|
      invariant totalIncome == Sum(ts[..i], Flow(true))
      invariant totalExpenses == Sum(ts[..i], Flow(false))
      invariant |categoryData| == |Categories|
      invariant forall k :: 0 <= k < |Categories| ==> categoryData[k] == Sum(ts[..i], CategoryExpenses(k))
    {
      var t := ts[i];
      assert ts[..i + 1][..i] == ts[..i];
      if t.kind == "income" {
        totalIncome := totalIncome + t.amount;
      } else {
        totalExpenses := totalExpenses + t.amount;
        var k := Bucket(t.category);
        categoryData := categoryData[k := categoryData[k] + t.amount];
      }
    }
    assert ts[..|ts|] == ts;
    BucketsPartitionExpenses(ts);
    SumOfFive(categoryData);
    var netSavings := totalIncome - totalExpenses;
    d := Dashboard(totalIncome, totalExpenses, netSavings, GoalProgress(netSavings, savingsGoal),
                   Categories, categoryData);
  }

  /** The months in which the ledger has entries. */
  function Months(ts: seq<Transaction>): set<Month>
    decreases |ts|
  {
    if ts == [] then {} else Months(ts[..|ts| - 1]) + {MonthOf(ts[|ts| - 1].date)}
  }

  /** A month is among the ledger's months exactly when some entry is dated in it. */
  lemma {:induction false} MonthsMembers(ts: seq<Transaction>)
    ensures forall m :: m in Months(ts) <==> exists k :: 0 <= k < |ts| && MonthOf(ts[k].date) == m
    decreases |ts|
  {
    if ts != [] {
      var prefix := ts[..|ts| - 1];
      MonthsMembers(prefix);
      forall m | m in Months(ts) ensures exists k :: 0 <= k < |ts| && MonthOf(ts[k].date) == m {
        if m != MonthOf(ts[|ts| - 1].date) {
          assert m in Months(prefix);
          var k :| 0 <= k < |prefix| && MonthOf(prefix[k].date) == m;
          assert ts[k] == prefix[k];
        }
      }
      forall m | exists k :: 0 <= k < |ts| && MonthOf(ts[k].date) == m ensures m in Months(ts) {
        var k :| 0 <= k < |ts| && MonthOf(ts[k].date) == m;
        if k < |prefix| {
          assert prefix[k] == ts[k];
        }
      }
    }
  }

  /** A month without entries contributes nothing. */
  lemma {:induction false} NoMonthNoSum(ts: seq<Transaction>, m: Month, income: bool)
    requires m !in Months(ts)
    ensures Sum(ts, MonthFlow(m, income)) == 0.0
    decreases |ts|
  {
    if ts != [] {
      NoMonthNoSum(ts[..|ts| - 1], m, income);
    }
  }

  predicate Distinct(keys: seq<Month>) {
    forall i, j :: 0 <= i < j < |keys| ==> keys[i] != keys[j]
  }

  /** The month sums over a list of months. */
  function KeySum(keys: seq<Month>, ts: seq<Transaction>, income: bool): real {
    if keys == [] then 0.0 else Sum(ts, MonthFlow(keys[0], income)) + KeySum(keys[1..], ts, income)
  }

  lemma {:induction false} KeySumNoEntries(keys: seq<Month>, income: bool)
    ensures KeySum(keys, [], income) == 0.0
  {
    if keys != [] {
      KeySumNoEntries(keys[1..], income);
    }
  }

  /** One more entry adds its amount to the month sums once, when its month is
      listed and its side is the one summed. */
  lemma {:induction false} KeySumStep(keys: seq<Month>, ts: seq<Transaction>, t: Transaction, income: bool)
    requires Distinct(keys)
    ensures KeySum(keys, ts + [t], income)
         == KeySum(keys, ts, income) + (if IsIncome(t) == income && MonthOf(t.date) in keys then t.amount else 0.0)
  {
    if keys != [] {
      assert (ts + [t])[..|ts + [t]| - 1] == ts;
      KeySumStep(keys[1..], ts, t, income);
      if keys[0] == MonthOf(t.date) {
        assert MonthOf(t.date) !in keys[1..];
      }
    }
  }

  /** Listing every month of the ledger once, the month sums add up to the
      income total (or the expense total). */
  lemma {:induction false} MonthsPartitionFlow(keys: seq<Month>, ts: seq<Transaction>, income: bool)
    requires Distinct(keys)
    requires forall m :: m in Months(ts) ==> m in keys
    ensures KeySum(keys, ts, income) == Sum(ts, Flow(income))
    decreases |ts|
  {
    if ts == [] {
      KeySumNoEntries(keys, income);
    } else {
      var prefix := ts[..|ts| - 1];
      var t := ts[|ts| - 1];
      assert ts == prefix + [t];
      MonthsPartitionFlow(keys, prefix, income);
      KeySumStep(keys, prefix, t, income);
    }
  }

  /** The income and expense accumulated for one month. */
  datatype Flows = Flows(income: real, expense: real)

  /** One point of the monthly chart. */
  datatype MonthPoint = MonthPoint(month: Month, income: real, expense: real)

  /** The sum of the series' income (or expense) values. */
  function SeriesSum(series: seq<MonthPoint>, income: bool): real {
    if series == [] then 0.0
    else (if income then series[0].income else series[0].expense) + SeriesSum(series[1..], income)
  }

  lemma {:induction false} SeriesSumIsKeySum(series: seq<MonthPoint>, keys: seq<Month>, ts: seq<Transaction>, income: bool)
    requires |series| == |keys|
    requires forall i :: 0 <= i < |series| ==> series[i].month == keys[i]
    requires forall i :: 0 <= i < |series| ==>
      series[i].income == Sum(ts, MonthFlow(keys[i], true)) && series[i].expense == Sum(ts, MonthFlow(keys[i], false))
    ensures SeriesSum(series, income) == KeySum(keys, ts, income)
  {
    if series != [] {
      SeriesSumIsKeySum(series[1..], keys[1..], ts, income);
    }
  }

  predicate Chronological(months: seq<Month>) {
    forall i, j :: 0 <= i < j < |months| ==> MonthBefore(months[i], months[j])
  }

  /** Orders the (distinct) month keys from earliest to latest. */
  method SortMonths(keys: seq<Month>) returns (sorted: seq<Month>)
    requires Distinct(keys)
    ensures Chronological(sorted)
    ensures |sorted| == |keys|
    ensures forall m :: m in sorted <==> m in keys
  {
    sorted := [];
    for i := 0 to |keys|
      invariant Chronological(sorted)
      invariant |sorted| == i
      invariant forall m :: m in sorted <==> m in keys[..i]
    {
      var x := keys[i];
      assert x !in keys[..i];
      var p := 0;
      while p < |sorted| && MonthBefore(sorted[p], x)
        invariant 0 <= p <= |sorted|
        invariant forall q :: 0 <= q < p ==> MonthBefore(sorted[q], x)
      {
        p := p + 1;
      }
      assert forall q :: p <= q < |sorted| ==> MonthBefore(x, sorted[q]) by {
        if p < |sorted| {
          assert sorted[p] != x;
          assert MonthBefore(x, sorted[p]);
        }
      }
      sorted := sorted[..p] + [x] + sorted[p..];
      assert keys[..i + 1] == keys[..i] + [x];
    }
    assert keys[..|keys|] == keys;
  }

  /** Taking one more entry of the ledger adds its month to the months seen. */
  lemma MonthsStep(ts: seq<Transaction>, i: nat)
    requires i < |ts|
    ensures Months(ts[..i + 1]) == Months(ts[..i]) + {MonthOf(ts[i].date)}
  {
    assert ts[..i + 1][..i] == ts[..i];
  }

  /** Taking one more entry of the ledger adds its share to every sum. */
  lemma SumStep(ts: seq<Transaction>, i: nat, sel: Selection)
    requires i < |ts|
    ensures Sum(ts[..i + 1], sel) == Sum(ts[..i], sel) + Share(ts[i], sel)
  {
    assert ts[..i + 1][..i] == ts[..i];
  }

  /** A month's income and expense sums. */
  function MonthTotals(ts: seq<Transaction>, m: Month): Flows {
    Flows(Sum(ts, MonthFlow(m, true)), Sum(ts, MonthFlow(m, false)))
  }

  /** The grouping of a ledger: one entry per month that has entries, holding
      that month's sums, and the months listed once each. */
  ghost predicate Grouped(ts: seq<Transaction>, monthlyData: map<Month, Flows>, keys: seq<Month>) {
    && monthlyData.Keys == Months(ts)
    && (forall m :: m in monthlyData ==> monthlyData[m] == MonthTotals(ts, m))
    && Distinct(keys)
    && (forall m :: m in keys <==> m in monthlyData)
  }

  /** Taking one more entry into the grouping updates only its own month. */
  lemma GroupStep(ts: seq<Transaction>, i: nat, monthlyData: map<Month, Flows>, keys: seq<Month>, flows: Flows)
    requires i < |ts| && Grouped(ts[..i], monthlyData, keys)
    requires flows == MonthTotals(ts[..i + 1], MonthOf(ts[i].date))
    ensures var month := MonthOf(ts[i].date);
      Grouped(ts[..i + 1], monthlyData[month := flows], if month in monthlyData then keys else keys + [month])
  {
    var month := MonthOf(ts[i].date);
    var data' := monthlyData[month := flows];
    var keys' := if month in monthlyData then keys else keys + [month];
    MonthsStep(ts, i);
    assert data'.Keys == Months(ts[..i + 1]);
    forall m | m in data' ensures data'[m] == MonthTotals(ts[..i + 1], m) {
      if m != month {
        SumStep(ts, i, MonthFlow(m, true));
        SumStep(ts, i, MonthFlow(m, false));
      }
    }
    assert Distinct(keys') by {
      if month !in monthlyData {
        assert month !in keys;
      }
    }
    assert forall m :: m in keys' <==> m in data';
    assert Grouped(ts[..i + 1], data', keys');
  }

  /** One pass over the ledger accumulating each month's income and expense;
      `keys` lists the months in the order they were first met. */
  method GroupByMonth(ts: seq<Transaction>) returns (monthlyData: map<Month, Flows>, keys: seq<Month>)
    ensures Grouped(ts, monthlyData, keys)
  {
    monthlyData, keys := map[], [];
    for i := 0 to |ts|
      invariant Grouped(ts[..i], monthlyData, keys)
    {
      var t := ts[i];
      var month := MonthOf(t.date);
      var flows := Flows(0.0, 0.0);
      if month in monthlyData {
        flows := monthlyData[month];
      } else {
        NoMonthNoSum(ts[..i], month, true);
        NoMonthNoSum(ts[..i], month, false);
      }
      SumStep(ts, i, MonthFlow(month, true));
      SumStep(ts, i, MonthFlow(month, false));
      if t.kind == "income" {
        flows := flows.(income := flows.income + t.amount);
      } else {
        flows := flows.(expense := flows.expense + t.amount);
      }
      GroupStep(ts, i, monthlyData, keys, flows);
      if month !in monthlyData {
        keys := keys + [month];
      }
      monthlyData := monthlyData[month := flows];
    }
    assert ts[..|ts|] == ts;
  }

  /** The monthly chart's data: one point per month that has entries, in
      chronological order, each holding that month's income and expense sums. */
  method MonthlySeries(ts: seq<Transaction>) returns (series: seq<MonthPoint>)
    ensures Chronological(seq(|series|, i requires 0 <= i < |series| => series[i].month))
    ensures forall i :: 0 <= i < |series| ==> series[i].month in Months(ts)
    ensures forall m :: m in Months(ts) ==> exists i :: 0 <= i < |series| && series[i].month == m
    ensures forall i :: 0 <= i < |series| ==>
      series[i].income == Sum(ts, MonthFlow(series[i].month, true)) &&
      series[i].expense == Sum(ts, MonthFlow(series[i].month, false))
    ensures SeriesSum(series, true) == Sum(ts, Flow(true))
    ensures SeriesSum(series, false) == Sum(ts, Flow(false))
  {
    var monthlyData, keys := GroupByMonth(ts);
    var sorted := SortMonths(keys);
    series := seq(|sorted|, i requires 0 <= i < |sorted| =>
      MonthPoint(sorted[i], monthlyData[sorted[i]].income, monthlyData[sorted[i]].expense));
    assert seq(|series|, i requires 0 <= i < |series| => series[i].month) == sorted;
    assert Distinct(sorted);
    SeriesSumIsKeySum(series, sorted, ts, true);
    SeriesSumIsKeySum(series, sorted, ts, false);
    MonthsPartitionFlow(sorted, ts, true);
    MonthsPartitionFlow(sorted, ts, false);
  }
}
