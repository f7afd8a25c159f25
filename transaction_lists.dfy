/** The month's transaction tables (the page list and the dialog list): the rows of one
    view as the query returned them, their count, the cells of each row, the dialog's
    absolute total and the "No transactions found" row. `None` is the list before the query
    has produced data. */
module TransactionLists {
  import opened Records
  import opened Split
  import opened TypeFilter

  /** `transactions?.length || 0` */
  function Count(ts: Option<seq<Op>>): nat {
    if ts.Some? then |ts.value| else 0
  }

  /** `!transactions?.length`: the condition of the "No transactions found" row. */
  predicate ShowsEmptyRow(ts: Option<seq<Op>>) {
    ts.None? || |ts.value| == 0
  }

  /** The date cell: a formatted day, or "No date". */
  datatype DateCell = NoDate | OnDay(day: Date)

  /** One table row as displayed: date cell, description (`cozy_label`), category label and
      `Math.abs(amount || 0)`. */
  datatype RowView = RowView(date: DateCell, caption: string, category: string, amount: int)

  /** The cells of one operation: a missing date shows "No date", a missing description
      renders as empty text, a missing or empty category shows "Uncategorized", and the
      amount is shown without its sign. */
  function ShowRow(op: Op): (r: RowView)
    ensures r.date == NoDate <==> op.date.None?
    ensures op.date.Some? ==> r.date == OnDay(op.date.value)
    ensures op.displayLabel.Some? ==> r.caption == op.displayLabel.value
    ensures op.displayLabel.None? ==> r.caption == ""
    ensures op.category.Some? && op.category.value != "" ==> r.category == op.category.value
    ensures op.category.None? || op.category.value == "" ==> r.category == "Uncategorized"
    ensures r.amount == Abs(AmountOf(op))
    ensures r.amount >= 0 && (r.amount == 0 <==> AmountOf(op) == 0)
  {
    RowView(if op.date.Some? then OnDay(op.date.value) else NoDate,
            op.displayLabel.GetOr(""),
            CategoryKey(op, "Uncategorized"),
            Abs(AmountOf(op)))
  }

  /** Where the table may show date cell `a` above date cell `b`: later days first, "No date"
      rows above all. */
  predicate CellBefore(a: DateCell, b: DateCell) {
    a.NoDate? || (b.OnDay? && OnOrBefore(b.day, a.day))
  }

  /** `transactions?.map(...)`: one row per operation, in the order of the query. */
  function Rows(ts: Option<seq<Op>>): (r: seq<RowView>)
    ensures |r| == Count(ts)
    ensures forall i :: 0 <= i < |r| ==> r[i] == ShowRow(ts.value[i])
  {
    if ts.None? then [] else RowsOf(ts.value)
  }

  function RowsOf(ops: seq<Op>): (r: seq<RowView>)
    ensures |r| == |ops|
    ensures forall i :: 0 <= i < |r| ==> r[i] == ShowRow(ops[i])
  {
    if ops == [] then [] else [ShowRow(ops[0])] + RowsOf(ops[1..])
  }

  /** The empty-state row is shown exactly when the table has no rows, which is exactly when
      the header counts 0 transactions. */
  lemma EmptyRowExactly(ts: Option<seq<Op>>)
    ensures ShowsEmptyRow(ts) <==> Rows(ts) == []
    ensures ShowsEmptyRow(ts) <==> Count(ts) == 0
  {
    var r := Rows(ts);
    assert |r| == Count(ts);
  }

  /** `transactions?.reduce((sum, t) => sum + Math.abs(t.cozy_amount || 0), 0) || 0` */
  function TotalAmount(ts: Option<seq<Op>>): (r: int)
    ensures r >= 0
    ensures Count(ts) == 0 ==> r == 0
  {
    if ts.Some? then AbsSum(ts.value) else 0
  }

  /** The dialog's total of one view is that side of the income/expense split of the month's
      operations: income for the income view, expenses for the expense view. */
  lemma ViewTotals(ops: seq<Op>)
    ensures TotalAmount(Some(ByType(ops, Income))) == IncomeSum(ops)
    ensures TotalAmount(Some(ByType(ops, Expenses))) == ExpenseSum(ops)
  {
    IncomeViewSum(ops);
    ExpenseViewSum(ops);
  }

  /** The displayed rows of one view run newest first when the query returned the
      operations that way: the filter keeps the order and each row shows its own day. */
  lemma ViewNewestFirst(ops: seq<Op>, t: FlowType)
    requires NewestFirst(ops)
    ensures forall i, j :: 0 <= i < j < |Rows(Some(ByType(ops, t)))| ==>
      CellBefore(Rows(Some(ByType(ops, t)))[i].date, Rows(Some(ByType(ops, t)))[j].date)
  {
    var v := ByType(ops, t);
    var r := Rows(Some(v));
    ByTypeKeepsOrder(ops, t);
    forall i, j | 0 <= i < j < |r| ensures CellBefore(r[i].date, r[j].date) {
      assert ListedBefore(v[i].date, v[j].date);
      assert r[i] == ShowRow(v[i]) && r[j] == ShowRow(v[j]);
    }
  }
}
