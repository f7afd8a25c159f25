/** The three overview cards: the total balance over all accounts, and this month's income
    and expenses with their percentage change against the previous month. The three query
    results (accounts, this month's amounts, last month's amounts) are inputs; `None` stands
    for a query that returned no data. */
module OverviewSummary {
  import opened Records
  import opened Split

  /** `accounts.reduce((sum, a) => sum + parseFloat(a.cozy_balance || "0"), 0)`, balances
      already parsed, first to last. */
  function BalanceSum(accounts: seq<AccountRow>): int {
    if accounts == [] then 0
    else BalanceSum(accounts[..|accounts| - 1]) + accounts[|accounts| - 1].balance.GetOr(0)
  }

  /** The accounts with every missing balance written as "0". */
  function ZeroFilled(accounts: seq<AccountRow>): (r: seq<AccountRow>)
    ensures |r| == |accounts|
    ensures forall i :: 0 <= i < |r| ==> r[i].balance.Some? && r[i].balance.value == accounts[i].balance.GetOr(0)
  {
    if accounts == [] then []
    else
      var last := accounts[|accounts| - 1];
      ZeroFilled(accounts[..|accounts| - 1]) + [last.(balance := Some(last.balance.GetOr(0)))]
  }

  /** A missing balance counts exactly as a balance of "0". */
  lemma {:induction false} MissingBalanceIsZero(accounts: seq<AccountRow>)
    ensures BalanceSum(accounts) == BalanceSum(ZeroFilled(accounts))
  {
    if accounts != [] {
      var n := |accounts| - 1;
      MissingBalanceIsZero(accounts[..n]);
      var z := ZeroFilled(accounts);
      assert z[..n] == ZeroFilled(accounts[..n]);
    }
  }

  /** The sum over two lists of accounts is the sum of the two sums. */
  lemma {:induction false} BalanceSumAppend(a: seq<AccountRow>, b: seq<AccountRow>)
    ensures BalanceSum(a + b) == BalanceSum(a) + BalanceSum(b)
  {
    if b == [] {
      assert a + b == a;
    } else {
      BalanceSumAppend(a, b[..|b| - 1]);
      assert (a + b)[..|a + b| - 1] == a + b[..|b| - 1];
    }
  }

  /** `accounts?.reduce(...) || 0` */
  function TotalBalance(accounts: Option<seq<AccountRow>>): (r: int)
    ensures accounts.None? ==> r == 0
    ensures accounts.Some? ==> r == BalanceSum(accounts.value)
  {
    if accounts.Some? then BalanceSum(accounts.value) else 0
  }

  /** `data?.reduce(...)` with the income/expense callback: no data gives no metrics. */
  method PeriodFold(data: Option<seq<Op>>) returns (m: Option<Flow>)
    ensures data.None? ==> m.None?
    ensures data.Some? ==> m == Some(Flow(IncomeSum(data.value), ExpenseSum(data.value)))
    ensures m.Some? ==> m.value.income >= 0 && m.value.expenses >= 0
  {
    if data.None? {
      return None;
    }
    var f := FoldFlow(data.value);
    m := Some(f);
  }

  /** `(metrics?.income || 0)`, `(metrics?.expenses || 0)`: missing metrics read as zero. */
  function OrZero(m: Option<Flow>): (r: Flow)
    ensures m.None? ==> r == Flow(0, 0)
    ensures m.Some? ==> r == m.value
  {
    m.GetOr(Flow(0, 0))
  }

  /** `(cur - prev) / (prev || 1) * 100`: the change from the previous period in percent. */
  function PctChange(cur: int, prev: int): (r: real)
    ensures prev == 0 ==> r == (cur * 100) as real
    ensures prev != 0 ==> r * (prev as real) == ((cur - prev) * 100) as real
  {
    Quotient(cur - prev, prev) * 100.0
  }

  /** For a non-negative previous value (every fold total is one), the change is 0 exactly
      when nothing changed and has the sign of `cur - prev`: the up arrow shows exactly when
      the value grew. */
  lemma ChangeSign(cur: int, prev: int)
    requires prev >= 0
    ensures PctChange(cur, prev) == 0.0 <==> cur == prev
    ensures PctChange(cur, prev) > 0.0 <==> cur > prev
    ensures PctChange(cur, prev) < 0.0 <==> cur < prev
  {
    var q := Quotient(cur - prev, prev);
    var d := OrOne(prev) as real;
    assert q * d == (cur - prev) as real;
    if q > 0.0 {
      assert q * d > 0.0;
    } else if q < 0.0 {
      assert q * d < 0.0;
    }
  }

  /** What the monthly-analytics query returns. */
  datatype Analytics = Analytics(totalBalance: int, currentMonth: Flow, previousMonth: Flow, expenseChange: real)

  /** The query function: the balance sum, the two period folds with their defaults and the
      expense change between them. */
  method MonthlyAnalytics(accounts: Option<seq<AccountRow>>, currentData: Option<seq<Op>>, previousData: Option<seq<Op>>)
    returns (a: Analytics)
    ensures a.totalBalance == TotalBalance(accounts)
    ensures a.currentMonth == Flow(IncomeSum(currentData.GetOr([])), ExpenseSum(currentData.GetOr([])))
    ensures a.previousMonth == Flow(IncomeSum(previousData.GetOr([])), ExpenseSum(previousData.GetOr([])))
    ensures a.expenseChange == PctChange(a.currentMonth.expenses, a.previousMonth.expenses)
  {
    var current := PeriodFold(currentData);
    var previous := PeriodFold(previousData);
    var cur, prev := OrZero(current), OrZero(previous);
    a := Analytics(TotalBalance(accounts), cur, prev, PctChange(cur.expenses, prev.expenses));
  }

  /** The figures of the three cards: value shown and change against last month. */
  datatype Cards = Cards(balance: int, income: int, incomeChange: real, expenses: int, expenseChange: real)

  /** `analytics?.… || 0` on every card; the income change is computed here with the same
      rule the query uses for expenses. */
  function CardsOf(analytics: Option<Analytics>): (r: Cards)
    ensures analytics.None? ==> r == Cards(0, 0, 0.0, 0, 0.0)
    ensures analytics.Some? ==>
      r.balance == analytics.value.totalBalance
      && r.income == analytics.value.currentMonth.income
      && r.expenses == analytics.value.currentMonth.expenses
    ensures analytics.Some? ==> r.expenseChange == analytics.value.expenseChange
    ensures analytics.Some? ==>
      r.incomeChange == PctChange(analytics.value.currentMonth.income, analytics.value.previousMonth.income)
  {
    match analytics
    case None => Cards(0, 0, PctChange(0, 0), 0, 0.0)
    case Some(a) =>
      Cards(a.totalBalance, a.currentMonth.income,
            PctChange(a.currentMonth.income, a.previousMonth.income),
            a.currentMonth.expenses, a.expenseChange)
  }

  /** Both change figures of the cards follow one rule over their own side of the split, and
      each is up exactly when that side grew from last month to this month. */
  lemma CardChanges(accounts: Option<seq<AccountRow>>, currentData: Option<seq<Op>>, previousData: Option<seq<Op>>, a: Analytics)
    requires a.currentMonth == Flow(IncomeSum(currentData.GetOr([])), ExpenseSum(currentData.GetOr([])))
    requires a.previousMonth == Flow(IncomeSum(previousData.GetOr([])), ExpenseSum(previousData.GetOr([])))
    requires a.expenseChange == PctChange(a.currentMonth.expenses, a.previousMonth.expenses)
    ensures CardsOf(Some(a)).incomeChange > 0.0 <==> IncomeSum(currentData.GetOr([])) > IncomeSum(previousData.GetOr([]))
    ensures CardsOf(Some(a)).expenseChange > 0.0 <==> ExpenseSum(currentData.GetOr([])) > ExpenseSum(previousData.GetOr([]))
  {
    ChangeSign(a.currentMonth.income, a.previousMonth.income);
    ChangeSign(a.currentMonth.expenses, a.previousMonth.expenses);
  }
}
