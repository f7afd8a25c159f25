/** The three category charts built on the shared grouping: the expense pie chart of the
    overview (fallback "Other", five slices), the bar chart of the transactions page
    ("Uncategorized", eight bars) and the bar chart of the transaction dialog
    ("Uncategorized", six bars, with an average per transaction), together with the
    tooltip percentage. */
module CategoryCharts {
  import opened Records
  import opened Split
  import opened Ranking
  import opened Dict
  import opened CategoryTotals
  import opened TransactionLists

  /** The expense pie chart: the five largest categories, or all of them when there are fewer,
      largest first, each holding the absolute total of its rows; a category left out is no
      larger than one shown. */
  method ExpenseByCategory(data: seq<Op>) returns (r: seq<(string, int)>)
    ensures |r| == if 5 < |Totals(data, "Other")| then 5 else |Totals(data, "Other")|
    ensures NonIncreasing(r, Amount) && Distinct(Keys(r))
    ensures forall p :: p in r ==> HasRow(data, "Other", p.0) && p.1 == KeySum(data, "Other", p.0)
    ensures forall p, q :: p in Totals(data, "Other") && p !in r && q in r ==> p.1 <= q.1
    ensures SumBy(r, Amount) <= AbsSum(data)
  {
    r := RankedTotals(data, "Other", 5);
  }

  /** What a bar chart displays: the bars and `totalAmount`, the sum over the bars. */
  datatype ChartView = ChartView(entries: seq<(string, int)>, total: int)

  /** `chartData || {}` ranked and cut to the `n` largest bars, or all of them when there are
      fewer; `totalAmount` sums the bars shown only, so
      it never exceeds the absolute total of the rows of the view. */
  method BarChart(transactions: Option<seq<Op>>, n: nat) returns (v: ChartView)
    ensures |v.entries| == if n < |Totals(transactions.GetOr([]), "Uncategorized")| then n
                           else |Totals(transactions.GetOr([]), "Uncategorized")|
    ensures NonIncreasing(v.entries, Amount) && Distinct(Keys(v.entries))
    ensures forall p :: p in v.entries ==>
      HasRow(transactions.GetOr([]), "Uncategorized", p.0)
      && p.1 == KeySum(transactions.GetOr([]), "Uncategorized", p.0)
    ensures forall p, q ::
      (p in Totals(transactions.GetOr([]), "Uncategorized") && p !in v.entries && q in v.entries) ==> p.1 <= q.1
    ensures v.total == SumBy(v.entries, Amount)
    ensures 0 <= v.total <= AbsSum(transactions.GetOr([]))
  {
    var entries := RankedTotals(transactions.GetOr([]), "Uncategorized", n);
    forall p | p in entries ensures Amount(p) >= 0 {
    }
    NonNegativeSum(entries, Amount);
    v := ChartView(entries, SumBy(entries, Amount));
  }

  /** The bar chart of the transactions page: eight bars. */
  method TransactionChart(transactions: Option<seq<Op>>) returns (v: ChartView)
    ensures |v.entries| == if 8 < |Totals(transactions.GetOr([]), "Uncategorized")| then 8
                           else |Totals(transactions.GetOr([]), "Uncategorized")|
    ensures NonIncreasing(v.entries, Amount) && Distinct(Keys(v.entries))
    ensures forall p :: p in v.entries ==>
      HasRow(transactions.GetOr([]), "Uncategorized", p.0)
      && p.1 == KeySum(transactions.GetOr([]), "Uncategorized", p.0)
    ensures forall p, q ::
      (p in Totals(transactions.GetOr([]), "Uncategorized") && p !in v.entries && q in v.entries) ==> p.1 <= q.1
    ensures v.total == SumBy(v.entries, Amount)
    ensures 0 <= v.total <= AbsSum(transactions.GetOr([]))
  {
    v := BarChart(transactions, 8);
  }

  /** `totalAmount / (transactions?.length || 1)`: the total of the bars shown, divided by the
      number of transactions of the view before the cut. */
  function Average(total: int, transactions: Option<seq<Op>>): (r: real)
    ensures r * (OrOne(Count(transactions)) as real) == total as real
    ensures total >= 0 ==> r >= 0.0
  {
    total as real / OrOne(Count(transactions)) as real
  }

  /** The bar chart of the transaction dialog: six bars and the average per transaction. */
  method DialogTransactionChart(transactions: Option<seq<Op>>) returns (v: ChartView, average: real)
    ensures |v.entries| == if 6 < |Totals(transactions.GetOr([]), "Uncategorized")| then 6
                           else |Totals(transactions.GetOr([]), "Uncategorized")|
    ensures NonIncreasing(v.entries, Amount) && Distinct(Keys(v.entries))
    ensures forall p :: p in v.entries ==>
      HasRow(transactions.GetOr([]), "Uncategorized", p.0)
      && p.1 == KeySum(transactions.GetOr([]), "Uncategorized", p.0)
    ensures forall p, q ::
      (p in Totals(transactions.GetOr([]), "Uncategorized") && p !in v.entries && q in v.entries) ==> p.1 <= q.1
    ensures v.total == SumBy(v.entries, Amount)
    ensures 0 <= v.total <= AbsSum(transactions.GetOr([]))
    ensures average == Average(v.total, transactions) && average >= 0.0
  {
    v := BarChart(transactions, 6);
    average := Average(v.total, transactions);
  }

  /** `(amount / totalAmount) * 100`; a zero total gives NaN or an infinity in JavaScript,
      which is `None` here. */
  function Percentage(amount: int, total: int): (r: Option<real>)
    ensures r.Some? <==> total != 0
    ensures r.Some? ==> r.value * (total as real) == (amount * 100) as real
  {
    if total == 0 then None else Some((amount * 100) as real / total as real)
  }

  /** The tooltip percentages of the bars, added up. */
  function PercentSum(entries: seq<(string, int)>, total: int): real {
    if entries == [] then 0.0 else Percentage(entries[0].1, total).GetOr(0.0) + PercentSum(entries[1..], total)
  }

  lemma {:induction false} PercentSumScaled(entries: seq<(string, int)>, total: int)
    requires total != 0
    ensures PercentSum(entries, total) * (total as real) == (SumBy(entries, Amount) * 100) as real
  {
    if entries != [] {
      PercentSumScaled(entries[1..], total);
      var a := Percentage(entries[0].1, total).value;
      var b := PercentSum(entries[1..], total);
      calc {
        PercentSum(entries, total) * (total as real);
        (a + b) * (total as real);
        a * (total as real) + b * (total as real);
        (entries[0].1 * 100) as real + (SumBy(entries[1..], Amount) * 100) as real;
      }
    }
  }

  /** A share of a positive total lies between 0 and 100. */
  lemma PercentageBounds(amount: int, total: int)
    requires 0 <= amount <= total && total > 0
    ensures Percentage(amount, total).Some?
    ensures 0.0 <= Percentage(amount, total).value <= 100.0
  {
    var x := Percentage(amount, total).value;
    var t := total as real;
    assert x * t == (amount * 100) as real <= 100.0 * t;
    if x > 100.0 {
      assert (x - 100.0) * t > 0.0;
    }
  }

  lemma HundredTimes(n: int)
    ensures (n * 100) as real == 100.0 * (n as real)
  {
  }

  lemma PercentTotal(entries: seq<(string, int)>, total: int)
    requires total == SumBy(entries, Amount) && total > 0
    ensures PercentSum(entries, total) == 100.0
  {
    PercentSumScaled(entries, total);
    HundredTimes(total);
    Cancel(PercentSum(entries, total), 100.0, total as real);
  }

  /** Over the bars shown, the tooltip percentages add up to 100 whenever the total is not 0,
      and each bar's percentage lies between 0 and 100. */
  lemma PercentagesOfBars(v: ChartView)
    requires v.total == SumBy(v.entries, Amount) && v.total > 0
    requires forall p :: p in v.entries ==> p.1 >= 0
    ensures PercentSum(v.entries, v.total) == 100.0
    ensures forall p :: p in v.entries ==>
      Percentage(p.1, v.total).Some? && 0.0 <= Percentage(p.1, v.total).value <= 100.0
  {
    PercentTotal(v.entries, v.total);
    forall p | p in v.entries
      ensures Percentage(p.1, v.total).Some? && 0.0 <= Percentage(p.1, v.total).value <= 100.0
    {
      var i :| 0 <= i < |v.entries| && v.entries[i] == p;
      EntryBelowSum(v.entries, i);
      PercentageBounds(p.1, v.total);
    }
  }

  lemma {:induction false} EntryBelowSum(entries: seq<(string, int)>, i: nat)
    requires i < |entries|
    requires forall p :: p in entries ==> p.1 >= 0
    ensures entries[i].1 <= SumBy(entries, Amount)
  {
    NonNegativeSum(entries[1..], Amount);
    if i > 0 {
      EntryBelowSum(entries[1..], i - 1);
    }
  }
}
