/** The account balance comparison chart: the balance history, ordered by day, pivoted into
    one chart row per day holding every account's balance on that day, and one area series
    per account, coloured from a five-entry palette in turn. */
module AccountBalanceComparison {
  import opened Records
  import opened Dict

  /** A row of cozy_balance_histories: the owning account (nullable), the day, the balance. */
  datatype BalanceRow = BalanceRow(account: Option<string>, day: Date, balance: int)

  /** The property name `acc[date][balance.cozy_account_id!]` writes: a null id is
      converted to the property name "null". */
  function AccountKey(row: BalanceRow): string {
    match row.account
    case Some(id) => id
    case None => "null"
  }

  /** The write to one day's record: `acc[date][id] = balance`. */
  function SetBalance(row: BalanceRow): seq<(string, int)> -> seq<(string, int)> {
    (balances: seq<(string, int)>) => Upsert(balances, AccountKey(row), 0, (_: int) => row.balance)
  }

  /** `balancesByDate`: for each day, first to last, its accounts and their balances. */
  function PivotOf(rows: seq<BalanceRow>): (r: seq<(Date, seq<(string, int)>)>)
    ensures Distinct(Keys(r))
  {
    if rows == [] then []
    else
      var n := |rows| - 1;
      var prev := PivotOf(rows[..n]);
      UpsertDistinct(prev, rows[n].day, [], SetBalance(rows[n]));
      Upsert(prev, rows[n].day, [], SetBalance(rows[n]))
  }

  /** The balance of the last row of `day` for `account`, if there is one: the value a
      sequence of plain overwrites leaves behind. */
  function LastBalance(rows: seq<BalanceRow>, day: Date, account: string): Option<int> {
    if rows == [] then None
    else
      var n := |rows| - 1;
      if rows[n].day == day && AccountKey(rows[n]) == account then Some(rows[n].balance)
      else LastBalance(rows[..n], day, account)
  }

  /** The days of the rows, in input order. */
  function Days(rows: seq<BalanceRow>): (r: seq<Date>)
    ensures |r| == |rows|
    ensures forall i :: 0 <= i < |rows| ==> r[i] == rows[i].day
  {
    if rows == [] then [] else Days(rows[..|rows| - 1]) + [rows[|rows| - 1].day]
  }

  /** What the record of `day` holds, if the day has one. */
  function DayRecord(rows: seq<BalanceRow>, day: Date): seq<(string, int)> {
    Lookup(PivotOf(rows), day).GetOr([])
  }

  /** The record of the last row's day is the earlier record with one more write. */
  lemma RecordSameDay(rows: seq<BalanceRow>)
    requires rows != []
    ensures DayRecord(rows, rows[|rows| - 1].day)
         == SetBalance(rows[|rows| - 1])(DayRecord(rows[..|rows| - 1], rows[|rows| - 1].day))
  {
    var n := |rows| - 1;
    assert PivotOf(rows) == Upsert(PivotOf(rows[..n]), rows[n].day, [], SetBalance(rows[n]));
  }

  /** The records of other days are untouched by the last row. */
  lemma RecordOtherDay(rows: seq<BalanceRow>, day: Date)
    requires rows != [] && rows[|rows| - 1].day != day
    ensures Lookup(PivotOf(rows), day) == Lookup(PivotOf(rows[..|rows| - 1]), day)
  {
    var n := |rows| - 1;
    assert PivotOf(rows) == Upsert(PivotOf(rows[..n]), rows[n].day, [], SetBalance(rows[n]));
  }

  /** A day has a record exactly when some row has that day. */
  lemma {:induction false} PivotHasDay(rows: seq<BalanceRow>, day: Date)
    ensures Lookup(PivotOf(rows), day).Some? <==> day in Days(rows)
  {
    if rows != [] {
      var n := |rows| - 1;
      PivotHasDay(rows[..n], day);
      assert Days(rows) == Days(rows[..n]) + [rows[n].day];
      if rows[n].day != day {
        RecordOtherDay(rows, day);
      } else {
        assert PivotOf(rows) == Upsert(PivotOf(rows[..n]), rows[n].day, [], SetBalance(rows[n]));
      }
    }
  }

  /** Within a day's record, an account has a balance exactly when some row of that day
      belongs to it, and the balance is that of the last such row: later rows overwrite
      earlier ones. */
  lemma {:induction false} PivotLookup(rows: seq<BalanceRow>, day: Date, account: string)
    ensures Lookup(DayRecord(rows, day), account) == LastBalance(rows, day, account)
  {
    if rows != [] {
      var n := |rows| - 1;
      var p := rows[..n];
      PivotLookup(p, day, account);
      if rows[n].day == day {
        RecordSameDay(rows);
      } else {
        RecordOtherDay(rows, day);
      }
    }
  }

  /** The chart has one row per distinct day, and each day appears. */
  lemma {:induction false} PivotDays(rows: seq<BalanceRow>)
    ensures forall d :: d in Keys(PivotOf(rows)) <==> d in Days(rows)
  {
    if rows != [] {
      var n := |rows| - 1;
      PivotDays(rows[..n]);
      UpsertKeys(PivotOf(rows[..n]), rows[n].day, [], SetBalance(rows[n]));
      assert Days(rows) == Days(rows[..n]) + [rows[n].day];
    }
  }

  /** The rows as the query orders them: by day, ascending. */
  predicate Ascending(rows: seq<BalanceRow>) {
    forall i, j :: 0 <= i < j < |rows| ==> OnOrBefore(rows[i].day, rows[j].day)
  }

  /** Strictly forward in time. */
  predicate StrictlyAscending(days: seq<Date>) {
    forall i, j :: 0 <= i < j < |days| ==> OnOrBefore(days[i], days[j]) && days[i] != days[j]
  }

  /** Every day already in the chart comes no later than a day that follows all rows. */
  lemma EarlierDays(p: seq<BalanceRow>, d: Date)
    requires forall j :: 0 <= j < |p| ==> OnOrBefore(p[j].day, d)
    ensures forall e :: e in Keys(PivotOf(p)) ==> OnOrBefore(e, d)
  {
    PivotDays(p);
  }

  /** A strictly ascending list stays so with a later, new day added at the end. */
  lemma AppendLater(k: seq<Date>, d: Date)
    requires StrictlyAscending(k) && d !in k
    requires forall e :: e in k ==> OnOrBefore(e, d)
    ensures StrictlyAscending(k + [d])
  {
    var r := k + [d];
    forall i, j | 0 <= i < j < |r| ensures OnOrBefore(r[i], r[j]) && r[i] != r[j] {
      assert r[i] == k[i] && r[i] in k;
      if j < |k| {
        assert r[j] == k[j];
      }
    }
  }

  /** Rows ordered by day give chart rows in day order: a day's record is placed where the
      day first occurs, so the chart runs strictly forward in time. */
  lemma {:induction false} PivotAscending(rows: seq<BalanceRow>)
    requires Ascending(rows)
    ensures StrictlyAscending(Keys(PivotOf(rows)))
  {
    if rows != [] {
      var n := |rows| - 1;
      var p := rows[..n];
      assert Ascending(p) by {
        forall i, j | 0 <= i < j < |p| ensures OnOrBefore(p[i].day, p[j].day) {
          assert p[i] == rows[i] && p[j] == rows[j];
        }
      }
      PivotAscending(p);
      var k := Keys(PivotOf(p));
      UpsertKeys(PivotOf(p), rows[n].day, [], SetBalance(rows[n]));
      if rows[n].day !in k {
        EarlierDays(p, rows[n].day);
        AppendLater(k, rows[n].day);
      }
    }
  }

  /** The reduce, writing into the nested record row by row. */
  method Pivot(rows: seq<BalanceRow>) returns (acc: seq<(Date, seq<(string, int)>)>)
    ensures acc == PivotOf(rows)
  {
    acc := [];
    for i := 0 to |rows|
      invariant acc == PivotOf(rows[..i])
    {
      assert rows[..i + 1][..i] == rows[..i];
      acc := Upsert(acc, rows[i].day, [], SetBalance(rows[i]));
    }
    assert rows[..|rows|] == rows;
  }

  /** An account as the chart lists it: `{ id: cozy_doc_id, label: cozy_label }`, the label held as `caption`. */
  datatype Account = Account(id: string, caption: string)

  /** `accounts.map(a => ({ id: a.cozy_doc_id, label: a.cozy_label }))`: one entry per
      account row, in order. */
  function AccountsOf(rows: seq<AccountRow>): (r: seq<Account>)
    ensures |r| == |rows|
    ensures forall i :: 0 <= i < |r| ==> r[i].id == rows[i].docId && r[i].caption == rows[i].displayLabel
  {
    seq(|rows|, i requires 0 <= i < |rows| => Account(rows[i].docId, rows[i].displayLabel))
  }

  /** The five colours, used in turn. */
  const Palette: seq<string> :=
    ["hsl(142, 76%, 36%)", "hsl(214, 100%, 60%)", "hsl(271, 91%, 65%)", "hsl(346, 87%, 43%)", "hsl(31, 97%, 55%)"]

  /** One area of the chart: the account's data key, its legend name and its colour. */
  datatype Series = Series(dataKey: string, name: string, color: string)

  /** `accounts.map((account, index) => ...)` with `colors[index % colors.length]`: one
      series per account, in order, never past the end of the palette. */
  function SeriesOf(accounts: seq<Account>): (r: seq<Series>)
    ensures |r| == |accounts|
    ensures forall i :: 0 <= i < |r| ==>
      r[i].dataKey == accounts[i].id && r[i].name == accounts[i].caption
      && r[i].color == Palette[i % |Palette|] && r[i].color in Palette
  {
    seq(|accounts|, i requires 0 <= i < |accounts| => Series(accounts[i].id, accounts[i].caption, Palette[i % |Palette|]))
  }

  /** The areas of the chart, from the account rows: the i-th area draws the balances stored
      under the i-th account's document id, is named by its label and takes colour i mod 5;
      accounts with different ids draw different data keys. */
  lemma ChartSeries(rows: seq<AccountRow>)
    ensures |SeriesOf(AccountsOf(rows))| == |rows|
    ensures forall i :: 0 <= i < |rows| ==>
      SeriesOf(AccountsOf(rows))[i].dataKey == rows[i].docId
      && SeriesOf(AccountsOf(rows))[i].name == rows[i].displayLabel
      && SeriesOf(AccountsOf(rows))[i].color == Palette[i % 5]
    ensures forall i, j :: 0 <= i < |rows| && 0 <= j < |rows| && rows[i].docId != rows[j].docId ==>
      SeriesOf(AccountsOf(rows))[i].dataKey != SeriesOf(AccountsOf(rows))[j].dataKey
  {
  }

  /** The five colours are different. */
  lemma PaletteDistinct()
    ensures forall a, b :: 0 <= a < b < |Palette| ==> Palette[a] != Palette[b]
  {
    assert Palette[0][4] == '1' && Palette[1][4] == '2' && Palette[2][4] == '2';
    assert Palette[3][4] == '3' && Palette[4][4] == '3';
    assert Palette[1][5] == '1' && Palette[2][5] == '7';
    assert Palette[3][5] == '4' && Palette[4][5] == '1';
  }

  /** The colours repeat every five accounts, and any five accounts in a row have five
      different colours. */
  lemma SeriesColors(accounts: seq<Account>)
    ensures forall i :: 0 <= i < |accounts| - 5 ==> SeriesOf(accounts)[i].color == SeriesOf(accounts)[i + 5].color
    ensures forall i, j :: 0 <= i < j < |accounts| && j - i < 5 ==> SeriesOf(accounts)[i].color != SeriesOf(accounts)[j].color
  {
    var r := SeriesOf(accounts);
    PaletteDistinct();
    forall i | 0 <= i < |accounts| - 5 ensures r[i].color == r[i + 5].color {
      assert (i + 5) % 5 == i % 5;
    }
    forall i, j | 0 <= i < j < |accounts| && j - i < 5 ensures r[i].color != r[j].color {
      assert i % 5 != j % 5;
    }
  }
}
