/** The income/expenses chart of the last six months: the month buckets keyed by the
    realisation date formatted as "yyyy-MM", listed with `localeCompare` ascending. Keys are
    zero-padded, so comparing them character by character is comparing the months in time. */
module IncomeExpenses {
  import opened Records
  import opened Split
  import opened Ranking
  import opened Dict
  import opened MonthBuckets

  function Pow10(w: nat): (r: nat)
    ensures r >= 1
  {
    if w == 0 then 1 else 10 * Pow10(w - 1)
  }

  function DigitChar(d: int): char
    requires 0 <= d < 10
  {
    ('0' as int + d) as char
  }

  /** `n` written with exactly `width` digits, zero-padded on the left. */
  function Digits(n: nat, width: nat): (r: seq<char>)
    ensures |r| == width
  {
    if width == 0 then [] else Digits(n / 10, width - 1) + [DigitChar(n % 10)]
  }

  /** `format(date, "yyyy-MM")` */
  function MonthKey(m: YearMonth): string
    requires m.year >= 0 && m.month >= 0
  {
    Digits(m.year, 4) + ("-" + Digits(m.month, 2))
  }

  /** Character-by-character order, a proper prefix first: how `localeCompare` orders two
      keys of this shape. */
  predicate LexLess(a: string, b: string) {
    if a == [] then b != []
    else if b == [] then false
    else a[0] < b[0] || (a[0] == b[0] && LexLess(a[1..], b[1..]))
  }

  /** Two strings that start with prefixes of one length compare by the prefixes first. */
  lemma {:induction false} LexAppend(p1: string, p2: string, s1: string, s2: string)
    requires |p1| == |p2|
    ensures LexLess(p1 + s1, p2 + s2) <==> LexLess(p1, p2) || (p1 == p2 && LexLess(s1, s2))
  {
    if p1 == [] {
      assert p1 + s1 == s1 && p2 + s2 == s2;
    } else {
      LexAppend(p1[1..], p2[1..], s1, s2);
      assert (p1 + s1)[1..] == p1[1..] + s1;
      assert (p2 + s2)[1..] == p2[1..] + s2;
      if p1[0] == p2[0] && p1[1..] == p2[1..] {
        assert p1 == [p1[0]] + p1[1..] && p2 == [p2[0]] + p2[1..];
      }
    }
  }

  lemma SnocEqual(a: string, b: string, c: char, d: char)
    requires |a| == |b|
    ensures a + [c] == b + [d] <==> a == b && c == d
  {
    if a + [c] == b + [d] {
      assert (a + [c])[..|a|] == a && (b + [d])[..|b|] == b;
      assert (a + [c])[|a|] == c && (b + [d])[|b|] == d;
    }
  }

  /** Zero-padded numbers of one width compare as strings exactly as they compare as
      numbers, and are equal exactly when the numbers are. */
  lemma {:induction false} DigitsOrder(x: nat, y: nat, w: nat)
    requires x < Pow10(w) && y < Pow10(w)
    ensures LexLess(Digits(x, w), Digits(y, w)) <==> x < y
    ensures Digits(x, w) == Digits(y, w) <==> x == y
  {
    if w == 0 {
    } else {
      var hx, hy := x / 10, y / 10;
      var lx, ly := x % 10, y % 10;
      assert x == 10 * hx + lx && y == 10 * hy + ly;
      assert hx < Pow10(w - 1) && hy < Pow10(w - 1);
      DigitsOrder(hx, hy, w - 1);
      LexAppend(Digits(hx, w - 1), Digits(hy, w - 1), [DigitChar(lx)], [DigitChar(ly)]);
      SnocEqual(Digits(hx, w - 1), Digits(hy, w - 1), DigitChar(lx), DigitChar(ly));
      assert LexLess([DigitChar(lx)], [DigitChar(ly)]) <==> lx < ly;
    }
  }

  /** A month with a four-digit year and a month number that `MM` spells. */
  predicate Spellable(m: YearMonth) {
    0 <= m.year <= 9999 && 1 <= m.month <= 12
  }

  /** On months the format can spell, "yyyy-MM" keys compare as strings exactly as the months
      compare in time, and two keys are equal exactly when the months are. */
  lemma KeyOrder(a: YearMonth, b: YearMonth)
    requires Spellable(a) && Spellable(b)
    ensures LexLess(MonthKey(a), MonthKey(b)) <==> a.Rank() < b.Rank()
    ensures MonthKey(a) == MonthKey(b) <==> a == b
  {
    assert Pow10(4) == 10000 && Pow10(2) == 100;
    DigitsOrder(a.year, b.year, 4);
    DigitsOrder(a.month, b.month, 2);
    LexAppend(Digits(a.year, 4), Digits(b.year, 4), "-" + Digits(a.month, 2), "-" + Digits(b.month, 2));
    LexAppend("-", "-", Digits(a.month, 2), Digits(b.month, 2));
    if MonthKey(a) == MonthKey(b) {
      assert MonthKey(a)[..4] == Digits(a.year, 4) && MonthKey(b)[..4] == Digits(b.year, 4);
      assert MonthKey(a)[5..] == Digits(a.month, 2) && MonthKey(b)[5..] == Digits(b.month, 2);
    }
  }

  /** One point of the chart: `{ date, income, expenses }`. */
  datatype MonthRow = MonthRow(date: string, income: int, expenses: int)

  function RowsOf(buckets: seq<(YearMonth, Flow)>): (r: seq<MonthRow>)
    requires forall p :: p in buckets ==> p.0.year >= 0 && p.0.month >= 0
    ensures |r| == |buckets|
    ensures forall i :: 0 <= i < |r| ==>
      r[i] == MonthRow(MonthKey(buckets[i].0), buckets[i].1.income, buckets[i].1.expenses)
  {
    if buckets == [] then [] else [MonthRow(MonthKey(buckets[0].0), buckets[0].1.income, buckets[0].1.expenses)] + RowsOf(buckets[1..])
  }

  /** The rows of the six months, with every date one the format can spell. */
  predicate Spelled(data: seq<Op>) {
    DatesPresent(data) && forall i :: 0 <= i < |data| ==> Spellable(MonthOf(data[i].date.value))
  }

  /** The chart point of month `m`. */
  function PointOf(data: seq<Op>, m: YearMonth): MonthRow
    requires DatesPresent(data) && m.year >= 0 && m.month >= 0
  {
    MonthRow(MonthKey(m), MonthFlow(data, m).income, MonthFlow(data, m).expenses)
  }

  /** The sorted buckets, each with a month the format can spell. */
  lemma SortedBuckets(data: seq<Op>)
    requires Spelled(data)
    ensures |Chronological(BucketsOf(data))| == |BucketsOf(data)|
    ensures forall p :: p in Chronological(BucketsOf(data)) ==>
      Spellable(p.0) && HasMonth(data, p.0) && p.1 == MonthFlow(data, p.0)
  {
    ChronologicalEntries(data);
    forall p | p in Chronological(BucketsOf(data)) ensures Spellable(p.0) {
      var i :| 0 <= i < |data| && MonthOf(data[i].date.value) == p.0;
    }
  }

  /** `Object.entries(monthlyData).map(...).sort((a, b) => a.date.localeCompare(b.date))` */
  function ChartRows(data: seq<Op>): (r: seq<MonthRow>)
    requires Spelled(data)
    ensures |r| == |BucketsOf(data)|
  {
    SortedBuckets(data);
    RowsOf(Chronological(BucketsOf(data)))
  }

  /** `row` is the point of some month that has rows. */
  ghost predicate PointOfSomeMonth(data: seq<Op>, row: MonthRow)
    requires DatesPresent(data)
  {
    exists m :: HasMonth(data, m) && Spellable(m) && row == PointOf(data, m)
  }

  /** One point per month that has rows, each holding that month's income and expenses. */
  lemma ChartPoints(data: seq<Op>)
    requires Spelled(data)
    ensures forall i :: 0 <= i < |ChartRows(data)| ==> PointOfSomeMonth(data, ChartRows(data)[i])
  {
    var sorted := Chronological(BucketsOf(data));
    SortedBuckets(data);
    forall i | 0 <= i < |ChartRows(data)| ensures PointOfSomeMonth(data, ChartRows(data)[i]) {
      var m := sorted[i].0;
      assert sorted[i] in sorted;
      assert HasMonth(data, m) && Spellable(m) && ChartRows(data)[i] == PointOf(data, m);
    }
  }

  /** Every month that has rows gets its point: no month of the data is missing from the
      chart. */
  lemma ChartCovers(data: seq<Op>)
    requires Spelled(data)
    ensures forall i :: 0 <= i < |data| ==> PointOf(data, MonthOf(data[i].date.value)) in ChartRows(data)
  {
    var sorted := Chronological(BucketsOf(data));
    SortedBuckets(data);
    ChronologicalCovers(data);
    forall i | 0 <= i < |data| ensures PointOf(data, MonthOf(data[i].date.value)) in ChartRows(data) {
      var m := MonthOf(data[i].date.value);
      var j :| 0 <= j < |sorted| && Keys(sorted)[j] == m;
      assert sorted[j] in sorted;
      assert ChartRows(data)[j] == PointOf(data, m);
    }
  }

  /** The points run strictly upwards in `localeCompare` order, which on these keys is
      strictly forward in time: no month appears twice. */
  lemma ChartOrder(data: seq<Op>)
    requires Spelled(data)
    ensures forall i, j :: 0 <= i < j < |ChartRows(data)| ==> LexLess(ChartRows(data)[i].date, ChartRows(data)[j].date)
  {
    var sorted := Chronological(BucketsOf(data));
    var r := ChartRows(data);
    SortedBuckets(data);
    assert MonthsValid(data);
    ChronologicalOrder(data);
    forall i, j | 0 <= i < j < |r| ensures LexLess(r[i].date, r[j].date) {
      assert sorted[i] in sorted && sorted[j] in sorted;
      KeyOrder(sorted[i].0, sorted[j].0);
    }
  }

  /** No row is lost: the points add up to the income/expense split of all rows. */
  lemma ChartTotals(data: seq<Op>)
    requires Spelled(data)
    ensures SumBy(ChartRows(data), RowIncome) == IncomeSum(data)
    ensures SumBy(ChartRows(data), RowExpenses) == ExpenseSum(data)
  {
    var acc := BucketsOf(data);
    SortedBuckets(data);
    BucketSums(data);
    SortSum(acc, EarlierFirst, IncomeOf);
    SortSum(acc, EarlierFirst, ExpensesOf);
    RowSums(Chronological(acc));
  }

  /** The query function after the fetch: the reduce into buckets, then the sorted points. */
  method IncomeExpensesChart(data: seq<Op>) returns (r: seq<MonthRow>)
    requires Spelled(data)
    ensures r == ChartRows(data)
    ensures forall i :: 0 <= i < |r| ==> PointOfSomeMonth(data, r[i])
    ensures forall i :: 0 <= i < |data| ==> PointOf(data, MonthOf(data[i].date.value)) in r
    ensures forall i, j :: 0 <= i < j < |r| ==> LexLess(r[i].date, r[j].date)
    ensures SumBy(r, RowIncome) == IncomeSum(data) && SumBy(r, RowExpenses) == ExpenseSum(data)
  {
    var acc := Buckets(data);
    SortedBuckets(data);
    r := RowsOf(Chronological(acc));
    ChartPoints(data);
    ChartCovers(data);
    ChartOrder(data);
    ChartTotals(data);
  }

  function RowIncome(r: MonthRow): int {
    r.income
  }

  function RowExpenses(r: MonthRow): int {
    r.expenses
  }

  lemma {:induction false} RowSums(buckets: seq<(YearMonth, Flow)>)
    requires forall p :: p in buckets ==> p.0.year >= 0 && p.0.month >= 0
    ensures SumBy(RowsOf(buckets), RowIncome) == SumBy(buckets, IncomeOf)
    ensures SumBy(RowsOf(buckets), RowExpenses) == SumBy(buckets, ExpensesOf)
  {
    if buckets != [] {
      RowSums(buckets[1..]);
      assert RowsOf(buckets)[1..] == RowsOf(buckets[1..]);
    }
  }
}
