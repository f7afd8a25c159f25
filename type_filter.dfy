/** The "income" / "expenses" view the transaction lists and charts apply to the month's
    operations: income keeps amounts above 0, expenses keeps amounts below 0, so a zero (or
    null, read as 0) amount is in neither view. */
module TypeFilter {
  import opened Records
  import opened Split

  /** `type === "income" ? op.cozy_amount! > 0 : op.cozy_amount! < 0` */
  predicate Keeps(t: FlowType, op: Op) {
    match t
    case Income => AmountOf(op) > 0
    case Expenses => AmountOf(op) < 0
  }

  /** `data.filter(op => Keeps(type, op))`: exactly the rows of the view, none with a zero
      amount. */
  function ByType(ops: seq<Op>, t: FlowType): (r: seq<Op>)
    ensures |r| <= |ops|
    ensures forall x :: x in r <==> x in ops && Keeps(t, x)
    ensures forall i :: 0 <= i < |r| ==> AmountOf(r[i]) != 0
  {
    if ops == [] then []
    else
      var last := ops[|ops| - 1];
      assert ops == ops[..|ops| - 1] + [last];
      ByType(ops[..|ops| - 1], t) + (if Keeps(t, last) then [last] else [])
  }

  /** One step of the filter: the last row is kept exactly when the view keeps it. */
  lemma ByTypeSnoc(a: seq<Op>, x: Op, t: FlowType)
    ensures ByType(a + [x], t) == ByType(a, t) + (if Keeps(t, x) then [x] else [])
  {
    assert (a + [x])[..|a + [x]| - 1] == a;
  }

  /** The view is the in-order filter: it distributes over concatenation and keeps a single
      row exactly when the view keeps it, so the kept rows stay in their input order. */
  lemma {:induction false} ByTypeAppend(a: seq<Op>, b: seq<Op>, t: FlowType)
    ensures ByType(a + b, t) == ByType(a, t) + ByType(b, t)
    decreases |b|
  {
    if b == [] {
      assert a + b == a;
    } else {
      var p, x := b[..|b| - 1], b[|b| - 1];
      var kept := if Keeps(t, x) then [x] else [];
      assert ByType(a + b, t) == ByType(a + p, t) + kept by {
        assert a + b == (a + p) + [x];
        ByTypeSnoc(a + p, x, t);
      }
      assert ByType(b, t) == ByType(p, t) + kept by {
        assert b == p + [x];
        ByTypeSnoc(p, x, t);
      }
      ByTypeAppend(a, p, t);
      Regroup(ByType(a + b, t), ByType(b, t), ByType(a, t), ByType(p, t), ByType(a + p, t), kept);
    }
  }

  /** Appending the same tail to both sides of a split list. */
  lemma Regroup(whole: seq<Op>, back: seq<Op>, first: seq<Op>, middle: seq<Op>, front: seq<Op>, tail: seq<Op>)
    requires whole == front + tail && back == middle + tail && front == first + middle
    ensures whole == first + back
  {
  }

  /** A single row forms a view of its own exactly when the view keeps it. */
  lemma ByTypeSingle(x: Op, t: FlowType)
    ensures ByType([x], t) == if Keeps(t, x) then [x] else []
  {
    ByTypeSnoc([], x, t);
    assert [] + [x] == [x];
  }

  /** Where `order("cozy_realisation_date", { ascending: false })` may put a row with date
      `a` ahead of one with date `b`: later days first, rows without a date ahead of all. */
  predicate ListedBefore(a: Option<Date>, b: Option<Date>) {
    a.None? || (b.Some? && OnOrBefore(b.value, a.value))
  }

  /** The order the list query returns: newest realisation date first. */
  predicate NewestFirst(ops: seq<Op>) {
    forall i, j :: 0 <= i < j < |ops| ==> ListedBefore(ops[i].date, ops[j].date)
  }

  /** Filtering keeps the query's newest-first order. */
  lemma {:induction false} ByTypeKeepsOrder(ops: seq<Op>, t: FlowType)
    requires NewestFirst(ops)
    ensures NewestFirst(ByType(ops, t))
  {
    if ops != [] {
      var n := |ops| - 1;
      var p := ops[..n];
      assert NewestFirst(p) by {
        forall i, j | 0 <= i < j < |p| ensures ListedBefore(p[i].date, p[j].date) {
          assert p[i] == ops[i] && p[j] == ops[j];
        }
      }
      ByTypeKeepsOrder(p, t);
      var q := ByType(p, t);
      var r := ByType(ops, t);
      if Keeps(t, ops[n]) {
        assert r == q + [ops[n]];
        forall i, j | 0 <= i < j < |r| ensures ListedBefore(r[i].date, r[j].date) {
          assert r[i] == q[i];
          if j < |q| {
            assert r[j] == q[j];
          } else {
            assert q[i] in p;
            var k :| 0 <= k < |p| && p[k] == q[i];
            assert ops[k] == q[i];
          }
        }
      } else {
        assert r == q;
      }
    }
  }

  /** The income view's absolute total is the income side of the split. */
  lemma {:induction false} IncomeViewSum(ops: seq<Op>)
    ensures AbsSum(ByType(ops, Income)) == IncomeSum(ops)
  {
    if ops != [] {
      var p := ops[..|ops| - 1];
      var last := ops[|ops| - 1];
      IncomeViewSum(p);
      if Keeps(Income, last) {
        assert ByType(ops, Income) == ByType(p, Income) + [last];
        AbsSumSnoc(ByType(p, Income), last);
      } else {
        assert ByType(ops, Income) == ByType(p, Income);
      }
    }
  }

  /** The expense view's absolute total is the expense side of the split: the zero amounts
      it leaves out add nothing there. */
  lemma {:induction false} ExpenseViewSum(ops: seq<Op>)
    ensures AbsSum(ByType(ops, Expenses)) == ExpenseSum(ops)
  {
    if ops != [] {
      var p := ops[..|ops| - 1];
      var last := ops[|ops| - 1];
      ExpenseViewSum(p);
      if Keeps(Expenses, last) {
        assert ByType(ops, Expenses) == ByType(p, Expenses) + [last];
        AbsSumSnoc(ByType(p, Expenses), last);
      } else {
        assert ByType(ops, Expenses) == ByType(p, Expenses);
      }
    }
  }

  lemma AbsSumSnoc(a: seq<Op>, x: Op)
    ensures AbsSum(a + [x]) == AbsSum(a) + Abs(AmountOf(x))
  {
    assert (a + [x])[..|a|] == a;
  }
}
