/** The per-month bucketing shared by the income/expenses chart and the spending trends
    chart: every row adds its amount to the income or the expense side of the bucket of its
    realisation month, and the buckets are then put in chronological order. */
module MonthBuckets {
  import opened Records
  import opened Split
  import opened Ranking
  import opened Dict

  /** `if (amount > 0) acc[m].income += amount else acc[m].expenses += Math.abs(amount)` */
  function AddOp(op: Op): Flow -> Flow {
    (f: Flow) =>
      if IsIncome(op) then f.(income := f.income + AmountOf(op))
      else f.(expenses := f.expenses + Abs(AmountOf(op)))
  }

  /** The buckets the reduce builds, keyed by calendar month, first row to last. */
  function BucketsOf(rows: seq<Op>): (r: seq<(YearMonth, Flow)>)
    requires DatesPresent(rows)
    ensures Distinct(Keys(r))
  {
    if rows == [] then []
    else
      var n := |rows| - 1;
      var prev := BucketsOf(rows[..n]);
      var m := MonthOf(rows[n].date.value);
      UpsertDistinct(prev, m, Flow(0, 0), AddOp(rows[n]));
      Upsert(prev, m, Flow(0, 0), AddOp(rows[n]))
  }

  /** Some row was realised in month `m`. */
  predicate HasMonth(rows: seq<Op>, m: YearMonth)
    requires DatesPresent(rows)
  {
    exists i :: 0 <= i < |rows| && MonthOf(rows[i].date.value) == m
  }

  /** The rows realised in month `m`, in input order. */
  function RowsIn(rows: seq<Op>, m: YearMonth): seq<Op>
    requires DatesPresent(rows)
  {
    if rows == [] then []
    else
      var n := |rows| - 1;
      RowsIn(rows[..n], m) + (if MonthOf(rows[n].date.value) == m then [rows[n]] else [])
  }

  lemma HasMonthLast(rows: seq<Op>, m: YearMonth)
    requires rows != [] && DatesPresent(rows)
    ensures HasMonth(rows, m)
        <==> HasMonth(rows[..|rows| - 1], m) || MonthOf(rows[|rows| - 1].date.value) == m
  {
    var p := rows[..|rows| - 1];
    if HasMonth(rows, m) {
      var i :| 0 <= i < |rows| && MonthOf(rows[i].date.value) == m;
      if i < |p| {
        assert p[i] == rows[i];
      }
    }
    if HasMonth(p, m) {
      var i :| 0 <= i < |p| && MonthOf(p[i].date.value) == m;
      assert rows[i] == p[i];
    }
  }

  lemma {:induction false} RowsInAbsent(rows: seq<Op>, m: YearMonth)
    requires DatesPresent(rows) && !HasMonth(rows, m)
    ensures RowsIn(rows, m) == []
  {
    if rows != [] {
      HasMonthLast(rows, m);
      RowsInAbsent(rows[..|rows| - 1], m);
    }
  }

  /** The income and expenses of the rows of month `m`. */
  function MonthFlow(rows: seq<Op>, m: YearMonth): Flow
    requires DatesPresent(rows)
  {
    Flow(IncomeSum(RowsIn(rows, m)), ExpenseSum(RowsIn(rows, m)))
  }

  predicate LookupAgrees(rows: seq<Op>, m: YearMonth)
    requires DatesPresent(rows)
  {
    Lookup(BucketsOf(rows), m) == if HasMonth(rows, m) then Some(MonthFlow(rows, m)) else None
  }

  lemma LookupOtherRow(rows: seq<Op>, m: YearMonth)
    requires rows != [] && DatesPresent(rows)
    requires LookupAgrees(rows[..|rows| - 1], m)
    requires MonthOf(rows[|rows| - 1].date.value) != m
    ensures LookupAgrees(rows, m)
  {
    var n := |rows| - 1;
    HasMonthLast(rows, m);
    assert RowsIn(rows, m) == RowsIn(rows[..n], m) + [];
    assert RowsIn(rows, m) == RowsIn(rows[..n], m);
  }

  lemma LookupSameRow(rows: seq<Op>, m: YearMonth)
    requires rows != [] && DatesPresent(rows)
    requires LookupAgrees(rows[..|rows| - 1], m)
    requires MonthOf(rows[|rows| - 1].date.value) == m
    ensures LookupAgrees(rows, m)
  {
    var n := |rows| - 1;
    var p := rows[..n];
    var last := rows[n];
    var before := Lookup(BucketsOf(p), m).GetOr(Flow(0, 0));
    assert HasMonth(rows, m) by {
      HasMonthLast(rows, m);
    }
    assert before == MonthFlow(p, m) by {
      if !HasMonth(p, m) {
        RowsInAbsent(p, m);
      }
    }
    assert Lookup(BucketsOf(rows), m) == Some(AddOp(last)(before)) by {
      assert BucketsOf(rows) == Upsert(BucketsOf(p), m, Flow(0, 0), AddOp(last));
    }
    assert MonthFlow(rows, m) == AddOp(last)(before) by {
      assert RowsIn(rows, m) == RowsIn(p, m) + [last];
      FlowSnoc(RowsIn(p, m), last);
    }
  }

  /** A month has a bucket exactly when some row was realised in it, and the bucket holds
      the income and expenses of exactly the rows of that month. */
  lemma {:induction false} BucketLookup(rows: seq<Op>, m: YearMonth)
    requires DatesPresent(rows)
    ensures Lookup(BucketsOf(rows), m) == if HasMonth(rows, m) then Some(MonthFlow(rows, m)) else None
  {
    if rows != [] {
      var n := |rows| - 1;
      BucketLookup(rows[..n], m);
      if MonthOf(rows[n].date.value) == m {
        LookupSameRow(rows, m);
      } else {
        LookupOtherRow(rows, m);
      }
    }
  }

  function IncomeOf(p: (YearMonth, Flow)): int {
    p.1.income
  }

  function ExpensesOf(p: (YearMonth, Flow)): int {
    p.1.expenses
  }

  /** No row is lost: the buckets add up to the income/expense split of all rows. */
  lemma BucketSums(rows: seq<Op>)
    requires DatesPresent(rows)
    ensures SumBy(BucketsOf(rows), IncomeOf) == IncomeSum(rows)
    ensures SumBy(BucketsOf(rows), ExpensesOf) == ExpenseSum(rows)
  {
    BucketIncomeSum(rows);
    BucketExpenseSum(rows);
  }

  lemma {:induction false} BucketIncomeSum(rows: seq<Op>)
    requires DatesPresent(rows)
    ensures SumBy(BucketsOf(rows), IncomeOf) == IncomeSum(rows)
  {
    if rows != [] {
      var n := |rows| - 1;
      var prev := BucketsOf(rows[..n]);
      var m := MonthOf(rows[n].date.value);
      var before := Lookup(prev, m).GetOr(Flow(0, 0));
      BucketIncomeSum(rows[..n]);
      UpsertSum(prev, m, Flow(0, 0), AddOp(rows[n]), IncomeOf);
      assert AddOp(rows[n])(before).income == before.income + IncomePart(rows[n]);
    }
  }

  lemma {:induction false} BucketExpenseSum(rows: seq<Op>)
    requires DatesPresent(rows)
    ensures SumBy(BucketsOf(rows), ExpensesOf) == ExpenseSum(rows)
  {
    if rows != [] {
      var n := |rows| - 1;
      var prev := BucketsOf(rows[..n]);
      var m := MonthOf(rows[n].date.value);
      var before := Lookup(prev, m).GetOr(Flow(0, 0));
      BucketExpenseSum(rows[..n]);
      UpsertSum(prev, m, Flow(0, 0), AddOp(rows[n]), ExpensesOf);
      assert AddOp(rows[n])(before).expenses == before.expenses + ExpensePart(rows[n]);
    }
  }

  /** Every bucket is the month of some row, and both of its sides are non-negative. */
  lemma BucketEntries(rows: seq<Op>)
    requires DatesPresent(rows)
    ensures forall p :: p in BucketsOf(rows) ==>
      HasMonth(rows, p.0) && p.1 == MonthFlow(rows, p.0) && p.1.income >= 0 && p.1.expenses >= 0
  {
    var d := BucketsOf(rows);
    forall p | p in d ensures HasMonth(rows, p.0) && p.1 == MonthFlow(rows, p.0) {
      var i :| 0 <= i < |d| && d[i] == p;
      LookupAt(d, i);
      BucketLookup(rows, p.0);
    }
  }

  /** The reduce itself, updating the buckets in place row by row. */
  method Buckets(rows: seq<Op>) returns (acc: seq<(YearMonth, Flow)>)
    requires DatesPresent(rows)
    ensures acc == BucketsOf(rows)
  {
    acc := [];
    for i := 0 to |rows|
      invariant acc == BucketsOf(rows[..i])
    {
      assert rows[..i + 1][..i] == rows[..i];
      acc := Upsert(acc, MonthOf(rows[i].date.value), Flow(0, 0), AddOp(rows[i]));
    }
    assert rows[..|rows|] == rows;
  }

  /** Sorting key that puts earlier months first. */
  function EarlierFirst(p: (YearMonth, Flow)): int {
    -p.0.Rank()
  }

  /** The buckets in chronological order. */
  function Chronological(buckets: seq<(YearMonth, Flow)>): seq<(YearMonth, Flow)> {
    SortDesc(buckets, EarlierFirst)
  }

  /** Every row has a date, in a month numbered 1 to 12. */
  predicate MonthsValid(rows: seq<Op>) {
    DatesPresent(rows) && forall i :: 0 <= i < |rows| ==> MonthOf(rows[i].date.value).Valid()
  }

  /** Sorting loses no bucket and adds none: each sorted bucket is still the month of some
      row, holding that month's income and expenses. */
  lemma ChronologicalEntries(rows: seq<Op>)
    requires DatesPresent(rows)
    ensures |Chronological(BucketsOf(rows))| == |BucketsOf(rows)|
    ensures forall p :: p in Chronological(BucketsOf(rows)) ==> HasMonth(rows, p.0) && p.1 == MonthFlow(rows, p.0)
  {
    var b := BucketsOf(rows);
    var s := Chronological(b);
    BucketEntries(rows);
    assert |multiset(s)| == |multiset(b)|;
    forall p | p in s ensures HasMonth(rows, p.0) && p.1 == MonthFlow(rows, p.0) {
      assert p in multiset(s);
      assert p in multiset(b);
    }
  }

  /** The bucket of one row's month, found in the sorted buckets. */
  lemma RowHasPoint(rows: seq<Op>, i: nat) returns (j: nat)
    requires DatesPresent(rows) && i < |rows|
    ensures j < |Chronological(BucketsOf(rows))| && Chronological(BucketsOf(rows))[j].0 == MonthOf(rows[i].date.value)
  {
    var b := BucketsOf(rows);
    var m := MonthOf(rows[i].date.value);
    assert Lookup(b, m).Some? by {
      BucketLookup(rows, m);
    }
    LookupPresent(b, m);
    var k :| 0 <= k < |b| && Keys(b)[k] == m;
    j := SortedIndex(b, k);
  }

  /** Where an entry of the buckets sits after the sort. */
  lemma SortedIndex(b: seq<(YearMonth, Flow)>, k: nat) returns (j: nat)
    requires k < |b|
    ensures j < |Chronological(b)| && Chronological(b)[j] == b[k]
  {
    var s := Chronological(b);
    assert b[k] in multiset(b);
    assert b[k] in multiset(s);
    j :| 0 <= j < |s| && s[j] == b[k];
  }

  /** No month is dropped: the month of every row has a bucket after the sort. */
  lemma ChronologicalCovers(rows: seq<Op>)
    requires DatesPresent(rows)
    ensures forall i :: 0 <= i < |rows| ==> MonthOf(rows[i].date.value) in Keys(Chronological(BucketsOf(rows)))
  {
    forall i | 0 <= i < |rows| ensures MonthOf(rows[i].date.value) in Keys(Chronological(BucketsOf(rows))) {
      var j := RowHasPoint(rows, i);
      assert Keys(Chronological(BucketsOf(rows)))[j] == MonthOf(rows[i].date.value);
    }
  }

  /** Sorted buckets of valid months run strictly forward in time, one per month, and are
      the same buckets as before the sort. */
  lemma ChronologicalOrder(rows: seq<Op>)
    requires MonthsValid(rows)
    ensures multiset(Chronological(BucketsOf(rows))) == multiset(BucketsOf(rows))
    ensures forall i, j :: 0 <= i < j < |Chronological(BucketsOf(rows))| ==>
      Chronological(BucketsOf(rows))[i].0.Rank() < Chronological(BucketsOf(rows))[j].0.Rank()
  {
    var b := BucketsOf(rows);
    var s := Chronological(b);
    ChronologicalEntries(rows);
    DistinctKeysBy(b);
    SortKeepsDistinct(b, EarlierFirst, Key);
    forall p | p in s ensures p.0.Valid() {
      var i :| 0 <= i < |rows| && MonthOf(rows[i].date.value) == p.0;
    }
    forall i, j | 0 <= i < j < |s| ensures s[i].0.Rank() < s[j].0.Rank() {
      assert EarlierFirst(s[i]) >= EarlierFirst(s[j]);
      assert Key(s[i]) != Key(s[j]);
      assert s[i] in s && s[j] in s;
      RankInjective(s[i].0, s[j].0);
    }
  }
}
