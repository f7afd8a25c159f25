/** The analytics cards over the filtered operations: the current balance of all accounts,
    total income and total expenses, each with its share of the income flow; clicking the
    income or the expense card opens the transaction dialog of that type. */
module AnalyticsSummary {
  import opened Records
  import opened Split
  import opened OverviewSummary

  /** One card: the figure it shows, and the dialog type it opens (`null` for the balance). */
  datatype Card = Card(value: int, cardType: Option<FlowType>)

  /** The three cards; a missing query result shows 0. */
  function CardsOf(accountsBalance: Option<int>, metrics: Option<Flow>): (r: seq<Card>)
    ensures |r| == 3
    ensures r[0].cardType.None? && r[1].cardType == Some(Income) && r[2].cardType == Some(Expenses)
    ensures accountsBalance.None? ==> r[0].value == 0
    ensures accountsBalance.Some? ==> r[0].value == accountsBalance.value
    ensures metrics.None? ==> r[1].value == 0 && r[2].value == 0
    ensures metrics.Some? ==> r[1].value == metrics.value.income && r[2].value == metrics.value.expenses
  {
    [ Card(accountsBalance.GetOr(0), None),
      Card(OrZero(metrics).income, Some(Income)),
      Card(OrZero(metrics).expenses, Some(Expenses)) ]
  }

  /** `Math.abs(card.value / (metrics?.currentIncome || 1) * 100)`: the card's share of the
      income flow, in percent; never negative. */
  function ShareOfFlow(value: int, metrics: Option<Flow>): (r: real)
    ensures r >= 0.0
    ensures OrZero(metrics).income >= 0 ==> r * (OrOne(OrZero(metrics).income) as real) == (Abs(value) * 100) as real
  {
    var q := Quotient(value, OrZero(metrics).income) * 100.0;
    if q < 0.0 then -q else q
  }

  /** With income, the income card always shows 100 percent of the flow. */
  lemma IncomeCardShare(accountsBalance: Option<int>, flow: Flow)
    requires flow.income > 0
    ensures ShareOfFlow(CardsOf(accountsBalance, Some(flow))[1].value, Some(flow)) == 100.0
  {
    var s := ShareOfFlow(flow.income, Some(flow));
    var t := flow.income as real;
    assert OrOne(flow.income) == Abs(flow.income) == flow.income;
    assert s * t == (flow.income * 100) as real;
    assert (flow.income * 100) as real == 100.0 * t;
    Cancel(s, 100.0, t);
  }

  /** With income, the expense card shows expenses over income, in percent; without income it
      shows expenses times 100. */
  lemma ExpenseCardShare(accountsBalance: Option<int>, flow: Flow)
    requires flow.income >= 0 && flow.expenses >= 0
    ensures flow.income > 0 ==>
      ShareOfFlow(CardsOf(accountsBalance, Some(flow))[2].value, Some(flow)) * (flow.income as real)
      == (flow.expenses * 100) as real
    ensures flow.income == 0 ==>
      ShareOfFlow(CardsOf(accountsBalance, Some(flow))[2].value, Some(flow)) == (flow.expenses * 100) as real
  {
  }

  /** The component state `selectedType`: which dialog is open, if any. */
  class CardSelection {
    var selectedType: Option<FlowType>

    /** `useState(null)` */
    constructor ()
      ensures selectedType.None?
    {
      selectedType := None;
    }

    /** `card.type && setSelectedType(card.type)`: the balance card changes nothing, the two
        flow cards open their own dialog. */
    method Click(card: Card)
      modifies this
      ensures card.cardType.None? ==> selectedType == old(selectedType)
      ensures card.cardType.Some? ==> selectedType == card.cardType
    {
      if card.cardType.Some? {
        selectedType := card.cardType;
      }
    }

    /** `onClose={() => setSelectedType(null)}` */
    method Close()
      modifies this
      ensures selectedType.None?
    {
      selectedType := None;
    }
  }
}
