/** The spending trends charts: the month buckets of the filtered operations in
    chronological order, drawn once as income and expense bars and once as the net line
    `income - expenses`. */
module SpendingTrends {
  import opened Records
  import opened Split
  import opened Ranking
  import opened Dict
  import opened MonthBuckets

  /** `Object.values(monthlyData || {}).sort(...)` after the reduce: no data gives no points. */
  method Trends(operations: Option<seq<Op>>) returns (r: seq<(YearMonth, Flow)>)
    requires operations.Some? ==> DatesPresent(operations.value)
    ensures operations.None? ==> r == []
    ensures operations.Some? ==> r == Chronological(BucketsOf(operations.value))
    ensures operations.Some? ==> |r| == |BucketsOf(operations.value)|
  {
    if operations.None? {
      return [];
    }
    var acc := Buckets(operations.value);
    ChronologicalEntries(operations.value);
    r := Chronological(acc);
  }

  /** The line's data key `d => d.income - d.expenses`. */
  function Net(p: (YearMonth, Flow)): int {
    p.1.income - p.1.expenses
  }

  lemma {:induction false} NetSplit(b: seq<(YearMonth, Flow)>)
    ensures SumBy(b, Net) == SumBy(b, IncomeOf) - SumBy(b, ExpensesOf)
  {
    if b != [] {
      NetSplit(b[1..]);
    }
  }

  /** The points of the net line add up to the signed sum of all amounts. */
  lemma NetTotal(ops: seq<Op>)
    requires DatesPresent(ops)
    ensures SumBy(Chronological(BucketsOf(ops)), Net) == SignedSum(ops)
  {
    var b := BucketsOf(ops);
    SortSum(b, EarlierFirst, Net);
    NetSplit(b);
    BucketSums(ops);
    NetIsSignedSum(ops);
  }

  /** Each point is one month that has rows, holding that month's income and expenses; the
      month of every row has a point; and with months numbered 1 to 12 the points run
      strictly forward in time, one per month. */
  lemma TrendPoints(ops: seq<Op>)
    requires MonthsValid(ops)
    ensures forall p :: p in Chronological(BucketsOf(ops)) ==> HasMonth(ops, p.0) && p.1 == MonthFlow(ops, p.0)
    ensures forall i :: 0 <= i < |ops| ==> MonthOf(ops[i].date.value) in Keys(Chronological(BucketsOf(ops)))
    ensures forall i, j :: 0 <= i < j < |Chronological(BucketsOf(ops))| ==>
      Chronological(BucketsOf(ops))[i].0.Rank() < Chronological(BucketsOf(ops))[j].0.Rank()
  {
    ChronologicalEntries(ops);
    ChronologicalCovers(ops);
    ChronologicalOrder(ops);
  }
}
