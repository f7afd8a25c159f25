/** Row shapes the dashboard reads from the remote store (types/supabase.ts),
    with money as integer cents and calendar days as (year, month, day). */
module Records {

  datatype Option<+T> = None | Some(value: T) {
    /** `x ?? default`, for a value that may be null. */
    function GetOr(default: T): T {
      match this
      case Some(v) => v
      case None => default
    }
  }

  /** A calendar day as the store writes it, "yyyy-MM-dd"; months run from 1 to 12. */
  datatype Date = Date(year: int, month: int, day: int) {
    /** A day that "yyyy-MM-dd" can spell with four year digits. */
    predicate Valid() {
      0 <= year <= 9999 && 1 <= month <= 12 && 1 <= day <= 31
    }

    /** What JavaScript's getMonth() gives for this day: 0 for January up to 11 for December. */
    function MonthIndex(): int {
      month - 1
    }
  }

  /** A calendar month, the bucket of the monthly charts. */
  datatype YearMonth = YearMonth(year: int, month: int) {
    predicate Valid() {
      1 <= month <= 12
    }

    /** Months counted from January of year 0: consecutive months have consecutive ranks. */
    function Rank(): int {
      year * 12 + month - 1
    }
  }

  function MonthOf(d: Date): YearMonth {
    YearMonth(d.year, d.month)
  }

  /** The calendar month before `m`: December of the year before, for January. */
  function PrevMonth(m: YearMonth): (r: YearMonth)
    requires m.Valid()
    ensures r.Valid() && r.Rank() == m.Rank() - 1
  {
    if m.month == 1 then YearMonth(m.year - 1, 12) else YearMonth(m.year, m.month - 1)
  }

  /** Two valid months are the same month exactly when their ranks agree. */
  lemma RankInjective(a: YearMonth, b: YearMonth)
    requires a.Valid() && b.Valid()
    ensures a.Rank() == b.Rank() <==> a == b
  {
  }

  /** Chronological order on days: `a` is on or before `b`. */
  predicate OnOrBefore(a: Date, b: Date) {
    a.year < b.year || (a.year == b.year && (a.month < b.month || (a.month == b.month && a.day <= b.day)))
  }

  /** A row of cozy_bank_operations joined with its category: signed amount (positive is
      income), realisation date, French category translation, owning account and the
      operation's own label (`cozy_label`). */
  datatype Op = Op(amount: Option<int>, date: Option<Date>, category: Option<string>, account: Option<string>,
                   displayLabel: Option<string>)

  /** A row of cozy_bank_accounts: its document id and label, and its balance string already
      parsed. */
  datatype AccountRow = AccountRow(docId: string, displayLabel: string, balance: Option<int>)

  /** The two views a card or a dialog can show: "income" or "expenses". */
  datatype FlowType = Income | Expenses

  /** The amount as every fold reads it: `null > 0` is false and `Math.abs(null)` is 0,
      so a null amount behaves as 0. */
  function AmountOf(op: Op): int {
    op.amount.GetOr(0)
  }

  function Abs(x: int): int {
    if x < 0 then -x else x
  }

  /** `n || 1`: the divisor guard used by every average and percentage. */
  function OrOne(n: int): int {
    if n == 0 then 1 else n
  }

  /** `n / (d || 1)` as a JavaScript number: the guarded quotient of every average and ratio. */
  function Quotient(n: int, d: int): (r: real)
    ensures r * (OrOne(d) as real) == n as real
    ensures n >= 0 && d >= 0 ==> r >= 0.0
  {
    n as real / OrOne(d) as real
  }

  /** A non-zero factor cancels on both sides of an equation. */
  lemma Cancel(x: real, y: real, t: real)
    requires t != 0.0 && x * t == y * t
    ensures x == y
  {
    assert (x - y) * t == 0.0;
  }

  /** `n / (n || 1)`: 1 for any number but 0, and 0 for 0. */
  lemma QuotientOfItself(n: int)
    ensures Quotient(n, n) == if n == 0 then 0.0 else 1.0
  {
    var q := Quotient(n, n);
    var d := OrOne(n) as real;
    assert q * d == n as real;
    if n != 0 {
      assert d == n as real;
      assert (q - 1.0) * d == 0.0;
    }
  }

  /** `op.cozy_operation_categories?.fr_traduction || fallback`: a missing or empty
      translation gives the fallback label. */
  function CategoryKey(op: Op, fallback: string): string {
    if op.category.Some? && op.category.value != "" then op.category.value else fallback
  }

  /** Every row has a realisation date (the folds read it with `!`). */
  predicate DatesPresent(ops: seq<Op>) {
    forall i :: 0 <= i < |ops| ==> ops[i].date.Some?
  }

  /** Every row has a realisation date with a four-digit year and a month in 1..12. */
  predicate DatesValid(ops: seq<Op>) {
    forall i :: 0 <= i < |ops| ==> ops[i].date.Some? && ops[i].date.value.Valid()
  }
}
