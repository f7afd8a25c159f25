/** The per-category grouping shared by the expense pie chart and both transaction
    charts: every row adds `Math.abs(amount || 0)` to the entry of its category label, and
    the entries are then ranked by total and cut to the first n. */
module CategoryTotals {
  import opened Records
  import opened Split
  import opened Ranking
  import opened Dict

  /** `v => v + x` */
  function AddAmount(x: int): int -> int {
    v => v + x
  }

  /** What one row adds to its category: `Math.abs(op.cozy_amount || 0)`. */
  function RowValue(op: Op): int {
    Abs(AmountOf(op))
  }

  /** The total of a `[name, value]` entry. */
  function Amount(p: (string, int)): int {
    p.1
  }

  /** `acc[category] = (acc[category] || 0) + amount` for one row: its category's entry
      grows by the row's value, every other entry stays. */
  function AddRow(d: seq<(string, int)>, op: Op, fallback: string): (r: seq<(string, int)>)
    ensures Lookup(r, CategoryKey(op, fallback)) == Some(Lookup(d, CategoryKey(op, fallback)).GetOr(0) + RowValue(op))
  {
    Upsert(d, CategoryKey(op, fallback), 0, AddAmount(RowValue(op)))
  }

  /** The entries of other categories stay. */
  lemma AddRowOther(d: seq<(string, int)>, op: Op, fallback: string, k: string)
    requires k != CategoryKey(op, fallback)
    ensures Lookup(AddRow(d, op, fallback), k) == Lookup(d, k)
  {
  }

  /** The reduce over the rows, first to last. */
  function Totals(rows: seq<Op>, fallback: string): seq<(string, int)> {
    if rows == [] then [] else AddRow(Totals(rows[..|rows| - 1], fallback), rows[|rows| - 1], fallback)
  }

  /** One entry per category label. */
  lemma {:induction false} TotalsDistinct(rows: seq<Op>, fallback: string)
    ensures Distinct(Keys(Totals(rows, fallback)))
  {
    if rows != [] {
      var last := rows[|rows| - 1];
      TotalsDistinct(rows[..|rows| - 1], fallback);
      UpsertDistinct(Totals(rows[..|rows| - 1], fallback), CategoryKey(last, fallback), 0, AddAmount(RowValue(last)));
    }
  }

  /** Some row is labelled `k`. */
  predicate HasRow(rows: seq<Op>, fallback: string, k: string) {
    exists i :: 0 <= i < |rows| && CategoryKey(rows[i], fallback) == k
  }

  /** The sum of `Math.abs(amount)` over the rows labelled `k`, an independent statement of
      what the group of `k` must hold. */
  function KeySum(rows: seq<Op>, fallback: string, k: string): (r: int)
    ensures r >= 0
  {
    if rows == [] then 0
    else
      var last := rows[|rows| - 1];
      KeySum(rows[..|rows| - 1], fallback, k) + (if CategoryKey(last, fallback) == k then RowValue(last) else 0)
  }

  lemma HasRowLast(rows: seq<Op>, fallback: string, k: string)
    requires rows != []
    ensures HasRow(rows, fallback, k)
        <==> HasRow(rows[..|rows| - 1], fallback, k) || CategoryKey(rows[|rows| - 1], fallback) == k
  {
    var p := rows[..|rows| - 1];
    if HasRow(rows, fallback, k) && CategoryKey(rows[|rows| - 1], fallback) != k {
      var i :| 0 <= i < |rows| && CategoryKey(rows[i], fallback) == k;
      assert p[i] == rows[i];
    }
    if HasRow(p, fallback, k) {
      var i :| 0 <= i < |p| && CategoryKey(p[i], fallback) == k;
      assert rows[i] == p[i];
    }
  }

  /** A label no row carries sums to nothing. */
  lemma {:induction false} KeySumAbsent(rows: seq<Op>, fallback: string, k: string)
    requires !HasRow(rows, fallback, k)
    ensures KeySum(rows, fallback, k) == 0
  {
    if rows != [] {
      HasRowLast(rows, fallback, k);
      KeySumAbsent(rows[..|rows| - 1], fallback, k);
    }
  }

  predicate LookupAgrees(rows: seq<Op>, fallback: string, k: string) {
    Lookup(Totals(rows, fallback), k) == if HasRow(rows, fallback, k) then Some(KeySum(rows, fallback, k)) else None
  }

  lemma LookupOtherRow(rows: seq<Op>, fallback: string, k: string)
    requires rows != [] && LookupAgrees(rows[..|rows| - 1], fallback, k)
    requires CategoryKey(rows[|rows| - 1], fallback) != k
    ensures LookupAgrees(rows, fallback, k)
  {
    HasRowLast(rows, fallback, k);
    AddRowOther(Totals(rows[..|rows| - 1], fallback), rows[|rows| - 1], fallback, k);
  }

  lemma LookupSameRow(rows: seq<Op>, fallback: string, k: string)
    requires rows != [] && LookupAgrees(rows[..|rows| - 1], fallback, k)
    requires CategoryKey(rows[|rows| - 1], fallback) == k
    ensures LookupAgrees(rows, fallback, k)
  {
    var p := rows[..|rows| - 1];
    var last := rows[|rows| - 1];
    var before := Lookup(Totals(p, fallback), k).GetOr(0);
    assert HasRow(rows, fallback, k) by {
      HasRowLast(rows, fallback, k);
    }
    assert before == KeySum(p, fallback, k) by {
      if !HasRow(p, fallback, k) {
        KeySumAbsent(p, fallback, k);
      }
    }
    assert Lookup(Totals(rows, fallback), k) == Some(before + RowValue(last));
    assert KeySum(rows, fallback, k) == before + RowValue(last);
    assert Lookup(Totals(rows, fallback), k) == Some(KeySum(rows, fallback, k));
  }

  /** A category has an entry exactly when some row carries its label, and the entry holds
      the sum of `Math.abs(amount)` over those rows: every row lands in exactly one group. */
  lemma {:induction false} TotalsLookup(rows: seq<Op>, fallback: string, k: string)
    ensures Lookup(Totals(rows, fallback), k)
         == if HasRow(rows, fallback, k) then Some(KeySum(rows, fallback, k)) else None
  {
    if rows != [] {
      TotalsLookup(rows[..|rows| - 1], fallback, k);
      if CategoryKey(rows[|rows| - 1], fallback) == k {
        LookupSameRow(rows, fallback, k);
      } else {
        LookupOtherRow(rows, fallback, k);
      }
    }
  }

  /** The entries of the grouping, read one by one. */
  lemma TotalsEntries(rows: seq<Op>, fallback: string)
    ensures forall p :: p in Totals(rows, fallback) ==>
      HasRow(rows, fallback, p.0) && p.1 == KeySum(rows, fallback, p.0)
  {
    var d := Totals(rows, fallback);
    forall p | p in d ensures HasRow(rows, fallback, p.0) && p.1 == KeySum(rows, fallback, p.0) {
      var i :| 0 <= i < |d| && d[i] == p;
      TotalsDistinct(rows, fallback);
      LookupAt(d, i);
      TotalsLookup(rows, fallback, p.0);
    }
  }

  /** Before any truncation, the groups add up to the absolute total of all rows. */
  lemma {:induction false} TotalsSum(rows: seq<Op>, fallback: string)
    ensures SumBy(Totals(rows, fallback), Amount) == AbsSum(rows)
  {
    if rows != [] {
      var p := rows[..|rows| - 1];
      var last := rows[|rows| - 1];
      TotalsSum(p, fallback);
      UpsertSum(Totals(p, fallback), CategoryKey(last, fallback), 0, AddAmount(RowValue(last)), Amount);
    }
  }

  /** The reduce itself, writing the dictionary in place row by row. */
  method GroupTotals(rows: seq<Op>, fallback: string) returns (acc: seq<(string, int)>)
    ensures acc == Totals(rows, fallback)
  {
    acc := [];
    for i := 0 to |rows|
      invariant acc == Totals(rows[..i], fallback)
    {
      assert rows[..i + 1][..i] == rows[..i];
      acc := AddRow(acc, rows[i], fallback);
    }
    assert rows[..|rows|] == rows;
  }

  /** `.sort((a, b) => b.value - a.value).slice(0, n)` on the entries. */
  function TopN(d: seq<(string, int)>, n: nat): seq<(string, int)> {
    Top(d, n, Amount)
  }

  /** Group, rank and cut: what each category chart displays. The result has the `n` largest
      categories, or all of them when there are fewer, distinct and largest first; each holds
      the absolute total of its rows; every category left out is no larger than any category
      shown; and what is shown adds up to no more than the absolute total of the rows. */
  method RankedTotals(rows: seq<Op>, fallback: string, n: nat) returns (r: seq<(string, int)>)
    ensures r == TopN(Totals(rows, fallback), n)
    ensures |r| == if n < |Totals(rows, fallback)| then n else |Totals(rows, fallback)|
    ensures NonIncreasing(r, Amount)
    ensures Distinct(Keys(r))
    ensures forall p :: p in r ==> HasRow(rows, fallback, p.0) && p.1 == KeySum(rows, fallback, p.0)
    ensures forall p, q :: p in Totals(rows, fallback) && p !in r && q in r ==> p.1 <= q.1
    ensures SumBy(r, Amount) <= AbsSum(rows)
  {
    var totals := GroupTotals(rows, fallback);
    r := TopN(totals, n);
    TopCut(totals, n, Amount);
    TotalsDistinct(rows, fallback);
    DistinctKeysBy(totals);
    TopKeepsDistinct(totals, n, Amount, Key);
    DistinctKeysBy(r);
    TotalsEntries(rows, fallback);
    TotalsSum(rows, fallback);
    TopSumBounded(totals, n, Amount);
  }
}
