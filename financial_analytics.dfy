/** The analytics card over the filtered operations: one pass that accumulates total income,
    total expenses, the largest income, the largest expense and the number of operations,
    followed by the averages, the income-to-expense ratio and the net balance derived from
    them. */
module FinancialAnalytics {
  import opened Records
  import opened Split
  import opened TransactionLists

  /** The accumulator of the metrics fold. */
  datatype Metrics = Metrics(totalIncome: int, totalExpenses: int, maxIncome: int, maxExpense: int, transactions: int)

  /** The accumulator's initial value, and the fallback when there are no operations. */
  const NoMetrics := Metrics(0, 0, 0, 0, 0)

  function Max(a: int, b: int): int {
    if a >= b then a else b
  }

  /** `acc.maxIncome = Math.max(acc.maxIncome, amount)` on the income branch, first to last. */
  function MaxIncome(ops: seq<Op>): (r: int)
    ensures r >= 0
  {
    if ops == [] then 0
    else
      var last := ops[|ops| - 1];
      var prev := MaxIncome(ops[..|ops| - 1]);
      if IsIncome(last) then Max(prev, AmountOf(last)) else prev
  }

  /** `acc.maxExpense = Math.max(acc.maxExpense, Math.abs(amount))` on the other branch. */
  function MaxExpense(ops: seq<Op>): (r: int)
    ensures r >= 0
  {
    if ops == [] then 0
    else
      var last := ops[|ops| - 1];
      var prev := MaxExpense(ops[..|ops| - 1]);
      if IsIncome(last) then prev else Max(prev, Abs(AmountOf(last)))
  }

  /** What the fold computes over a list of operations. */
  function MetricsOf(ops: seq<Op>): Metrics {
    Metrics(IncomeSum(ops), ExpenseSum(ops), MaxIncome(ops), MaxExpense(ops), |ops|)
  }

  /** `operations?.reduce(...) || { zeros }`: the fold over the operations, every one of them
      counted, null and zero amounts on the expense side; no data gives all zeros. */
  method ComputeMetrics(operations: Option<seq<Op>>) returns (m: Metrics)
    ensures operations.Some? ==> m == MetricsOf(operations.value)
    ensures operations.None? || operations.value == [] ==> m == NoMetrics
    ensures m.transactions == Count(operations)
  {
    if operations.None? {
      return NoMetrics;
    }
    var ops := operations.value;
    m := NoMetrics;
    for i := 0 to |ops|
      invariant m == MetricsOf(ops[..i])
    {
      assert ops[..i + 1][..i] == ops[..i];
      var amount := AmountOf(ops[i]);
      if amount > 0 {
        m := m.(totalIncome := m.totalIncome + amount, maxIncome := Max(m.maxIncome, amount));
      } else {
        m := m.(totalExpenses := m.totalExpenses + Abs(amount), maxExpense := Max(m.maxExpense, Abs(amount)));
      }
      m := m.(transactions := m.transactions + 1);
    }
    assert ops[..|ops|] == ops;
  }

  /** The largest income is at least every income amount, is one of them (or 0 when there is
      none) and is no more than the total income. */
  lemma {:induction false} MaxIncomeBounds(ops: seq<Op>)
    ensures forall i :: 0 <= i < |ops| && IsIncome(ops[i]) ==> AmountOf(ops[i]) <= MaxIncome(ops)
    ensures MaxIncome(ops) == 0
         || exists i :: 0 <= i < |ops| && IsIncome(ops[i]) && AmountOf(ops[i]) == MaxIncome(ops)
    ensures MaxIncome(ops) <= IncomeSum(ops)
  {
    if ops != [] {
      var n := |ops| - 1;
      var p := ops[..n];
      MaxIncomeBounds(p);
      forall i | 0 <= i < n ensures ops[i] == p[i] {
      }
      if MaxIncome(ops) != AmountOf(ops[n]) && MaxIncome(ops) != 0 {
        var i :| 0 <= i < |p| && IsIncome(p[i]) && AmountOf(p[i]) == MaxIncome(p);
        assert ops[i] == p[i];
      }
    }
  }

  /** The largest expense is at least the absolute value of every non-income amount, is one
      of them (or 0 when there is none) and is no more than the total expenses. */
  lemma {:induction false} MaxExpenseBounds(ops: seq<Op>)
    ensures forall i :: 0 <= i < |ops| && !IsIncome(ops[i]) ==> Abs(AmountOf(ops[i])) <= MaxExpense(ops)
    ensures MaxExpense(ops) == 0
         || exists i :: 0 <= i < |ops| && !IsIncome(ops[i]) && Abs(AmountOf(ops[i])) == MaxExpense(ops)
    ensures MaxExpense(ops) <= ExpenseSum(ops)
  {
    if ops != [] {
      var n := |ops| - 1;
      var p := ops[..n];
      MaxExpenseBounds(p);
      forall i | 0 <= i < n ensures ops[i] == p[i] {
      }
      if MaxExpense(ops) != Abs(AmountOf(ops[n])) && MaxExpense(ops) != 0 {
        var i :| 0 <= i < |p| && !IsIncome(p[i]) && Abs(AmountOf(p[i])) == MaxExpense(p);
        assert ops[i] == p[i];
      }
    }
  }

  /** `metrics.totalIncome - metrics.totalExpenses`: the net balance is the signed sum of all
      amounts, null read as 0. */
  function NetBalance(m: Metrics): int {
    m.totalIncome - m.totalExpenses
  }

  lemma NetBalanceIsSignedSum(ops: seq<Op>)
    ensures NetBalance(MetricsOf(ops)) == SignedSum(ops)
  {
    NetIsSignedSum(ops);
  }

  /** The two averages of the card. */
  datatype Averages = Averages(dailyExpenses: real, transactionsPerDay: real)

  /** `metrics.totalExpenses / (operations?.length || 1)` and
      `metrics.transactions / (operations?.length || 1)`. */
  function AveragesOf(m: Metrics, operations: Option<seq<Op>>): Averages {
    Averages(Quotient(m.totalExpenses, Count(operations)), Quotient(m.transactions, Count(operations)))
  }

  /** `transactions / length` is a constant: 1 for any operations, 0 for none. */
  lemma TransactionsPerDay(operations: Option<seq<Op>>, m: Metrics)
    requires m.transactions == Count(operations)
    ensures AveragesOf(m, operations).transactionsPerDay == if Count(operations) == 0 then 0.0 else 1.0
  {
    QuotientOfItself(Count(operations));
  }

  /** `(metrics.totalIncome / (metrics.totalExpenses || 1)) * 100` */
  function IncomeToExpenseRatio(m: Metrics): (r: real)
    ensures m.totalIncome >= 0 && m.totalExpenses >= 0 ==> r >= 0.0
  {
    Quotient(m.totalIncome, m.totalExpenses) * 100.0
  }

  /** `metrics.totalExpenses / (metrics.transactions || 1)` */
  function AverageTransactionSize(m: Metrics): real {
    Quotient(m.totalExpenses, m.transactions)
  }

  /** Because every operation is counted, the average transaction size and the daily expenses
      are the same figure. */
  lemma AverageSizeIsDailyExpenses(operations: Option<seq<Op>>, m: Metrics)
    requires m.transactions == Count(operations)
    ensures AverageTransactionSize(m) == AveragesOf(m, operations).dailyExpenses
  {
  }

  /** With expenses, the ratio is income over expenses in percent; without, it is income
      times 100. */
  lemma RatioGuard(m: Metrics)
    ensures m.totalExpenses != 0 ==> IncomeToExpenseRatio(m) * (m.totalExpenses as real) == (m.totalIncome * 100) as real
    ensures m.totalExpenses == 0 ==> IncomeToExpenseRatio(m) == (m.totalIncome * 100) as real
  {
    var q := Quotient(m.totalIncome, m.totalExpenses);
    assert q * (OrOne(m.totalExpenses) as real) == m.totalIncome as real;
    assert IncomeToExpenseRatio(m) * (OrOne(m.totalExpenses) as real) == (m.totalIncome as real) * 100.0;
  }
}
