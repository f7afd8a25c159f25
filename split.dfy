/** The income/expense split every summary applies to a list of operations: an amount
    above 0 is income; anything else, zero and null included, goes to the expense side as
    its absolute value. */
module Split {
  import opened Records

  predicate IsIncome(op: Op) {
    AmountOf(op) > 0
  }

  /** What one operation adds to the income side. */
  function IncomePart(op: Op): int {
    if IsIncome(op) then AmountOf(op) else 0
  }

  /** What one operation adds to the expense side: `Math.abs(amount)` off the income branch. */
  function ExpensePart(op: Op): int {
    if IsIncome(op) then 0 else Abs(AmountOf(op))
  }

  /** Total income of the operations, folded from the first to the last. */
  function IncomeSum(ops: seq<Op>): (r: int)
    ensures r >= 0
  {
    if ops == [] then 0 else IncomeSum(ops[..|ops| - 1]) + IncomePart(ops[|ops| - 1])
  }

  /** Total expenses of the operations, folded from the first to the last. */
  function ExpenseSum(ops: seq<Op>): (r: int)
    ensures r >= 0
  {
    if ops == [] then 0 else ExpenseSum(ops[..|ops| - 1]) + ExpensePart(ops[|ops| - 1])
  }

  /** The plain sum of the signed amounts, null read as 0. */
  function SignedSum(ops: seq<Op>): int {
    if ops == [] then 0 else SignedSum(ops[..|ops| - 1]) + AmountOf(ops[|ops| - 1])
  }

  /** The sum of `Math.abs(amount || 0)` over the operations. */
  function AbsSum(ops: seq<Op>): (r: int)
    ensures r >= 0
  {
    if ops == [] then 0 else AbsSum(ops[..|ops| - 1]) + Abs(AmountOf(ops[|ops| - 1]))
  }

  /** Net flow: income minus expenses is the signed sum of all amounts. */
  lemma {:induction false} NetIsSignedSum(ops: seq<Op>)
    ensures IncomeSum(ops) - ExpenseSum(ops) == SignedSum(ops)
  {
    if ops != [] {
      NetIsSignedSum(ops[..|ops| - 1]);
    }
  }

  /** One more row adds its part to each side. */
  lemma FlowSnoc(ops: seq<Op>, op: Op)
    ensures IncomeSum(ops + [op]) == IncomeSum(ops) + IncomePart(op)
    ensures ExpenseSum(ops + [op]) == ExpenseSum(ops) + ExpensePart(op)
  {
    assert (ops + [op])[..|ops|] == ops;
  }

  /** Both sides of the split are additive over concatenation. */
  lemma {:induction false} SplitAppend(a: seq<Op>, b: seq<Op>)
    ensures IncomeSum(a + b) == IncomeSum(a) + IncomeSum(b)
    ensures ExpenseSum(a + b) == ExpenseSum(a) + ExpenseSum(b)
  {
    if b == [] {
      assert a + b == a;
    } else {
      SplitAppend(a, b[..|b| - 1]);
      assert (a + b)[..|a + b| - 1] == a + b[..|b| - 1];
    }
  }

  /** Income and expenses of one period. */
  datatype Flow = Flow(income: int, expenses: int)

  /** The `reduce` whose callback does `acc.income += amount` or `acc.expenses += Math.abs(amount)`. */
  method FoldFlow(ops: seq<Op>) returns (f: Flow)
    ensures f == Flow(IncomeSum(ops), ExpenseSum(ops))
  {
    var income, expenses := 0, 0;
    for i := 0 to |ops|
      invariant income == IncomeSum(ops[..i]) && expenses == ExpenseSum(ops[..i])
    {
      assert ops[..i + 1][..i] == ops[..i];
      var amount := AmountOf(ops[i]);
      if amount > 0 {
        income := income + amount;
      } else {
        expenses := expenses + Abs(amount);
      }
    }
    assert ops[..|ops|] == ops;
    f := Flow(income, expenses);
  }
}
