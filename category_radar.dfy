/** The radar chart comparing each category's spending in the current month with the
    previous month. The rows are the expense operations of every month; a row is counted
    for the current month, for the previous month, or not at all, and the counted rows are
    grouped by category (fallback "Other"). Which rows count is decided by a `Rule`: the rule
    the chart applies compares month indexes only; the calendar rule compares (year, month). */
module CategoryRadar {
  import opened Records
  import opened Ranking
  import opened Dict
  import opened CategoryTotals

  /** One radar entry: a category with its current and previous month spending. */
  datatype Entry = Entry(category: string, current: int, previous: int)

  /** Where a row's date puts it. */
  datatype Period = Current | Previous | Ignored

  /** How a row's date is compared with `today`. `MonthIndexRule` is the chart's test:
      `getMonth()` of the row against `getMonth()` of today and that minus 1, whatever the
      years. `CalendarRule` compares calendar months, the previous month of January being
      December of the year before. */
  datatype Rule = MonthIndexRule(today: Date) | CalendarRule(today: Date)

  function PeriodOf(rule: Rule, d: Date): Period {
    match rule
    case MonthIndexRule(today) =>
      if d.MonthIndex() == today.MonthIndex() then Current
      else if d.MonthIndex() == today.MonthIndex() - 1 then Previous
      else Ignored
    case CalendarRule(today) =>
      if MonthOf(d) == MonthOf(today) then Current
      else if MonthOf(today).Valid() && MonthOf(d) == PrevMonth(MonthOf(today)) then Previous
      else Ignored
  }

  /** `acc[category].current += amount` or `acc[category].previous += amount`. */
  function AddTo(p: Period, amount: int): Entry -> Entry {
    (e: Entry) => if p == Current then e.(current := e.current + amount) else e.(previous := e.previous + amount)
  }

  /** The spending dictionary the reduce builds, first row to last. */
  function SpendingOf(rows: seq<Op>, rule: Rule): (r: seq<(string, Entry)>)
    requires DatesPresent(rows)
    ensures Distinct(Keys(r))
  {
    if rows == [] then []
    else
      var n := |rows| - 1;
      var prev := SpendingOf(rows[..n], rule);
      var last := rows[n];
      var p := PeriodOf(rule, last.date.value);
      var k := CategoryKey(last, "Other");
      if p == Ignored then prev
      else
        UpsertDistinct(prev, k, Entry(k, 0, 0), AddTo(p, RowValue(last)));
        Upsert(prev, k, Entry(k, 0, 0), AddTo(p, RowValue(last)))
  }

  /** Some row of category `k` is counted in one of the two months. */
  predicate Counted(rows: seq<Op>, rule: Rule, k: string)
    requires DatesPresent(rows)
  {
    exists i :: 0 <= i < |rows| && PeriodOf(rule, rows[i].date.value) != Ignored && CategoryKey(rows[i], "Other") == k
  }

  /** The spending of category `k` in period `p`: the sum of `Math.abs(amount)` over its rows
      of that period. */
  function PeriodSum(rows: seq<Op>, rule: Rule, k: string, p: Period): (r: int)
    requires DatesPresent(rows)
    ensures r >= 0
  {
    if rows == [] then 0
    else
      var n := |rows| - 1;
      var last := rows[n];
      PeriodSum(rows[..n], rule, k, p)
        + (if PeriodOf(rule, last.date.value) == p && CategoryKey(last, "Other") == k then RowValue(last) else 0)
  }

  lemma CountedLast(rows: seq<Op>, rule: Rule, k: string)
    requires rows != [] && DatesPresent(rows)
    ensures Counted(rows, rule, k) <==>
      Counted(rows[..|rows| - 1], rule, k)
      || (PeriodOf(rule, rows[|rows| - 1].date.value) != Ignored && CategoryKey(rows[|rows| - 1], "Other") == k)
  {
    var p := rows[..|rows| - 1];
    if Counted(rows, rule, k) {
      var i :| 0 <= i < |rows| && PeriodOf(rule, rows[i].date.value) != Ignored && CategoryKey(rows[i], "Other") == k;
      if i < |p| {
        assert p[i] == rows[i];
      }
    }
    if Counted(p, rule, k) {
      var i :| 0 <= i < |p| && PeriodOf(rule, p[i].date.value) != Ignored && CategoryKey(p[i], "Other") == k;
      assert rows[i] == p[i];
    }
  }

  lemma {:induction false} PeriodSumAbsent(rows: seq<Op>, rule: Rule, k: string, p: Period)
    requires DatesPresent(rows) && !Counted(rows, rule, k) && p != Ignored
    ensures PeriodSum(rows, rule, k, p) == 0
  {
    if rows != [] {
      CountedLast(rows, rule, k);
      PeriodSumAbsent(rows[..|rows| - 1], rule, k, p);
    }
  }

  /** What a lookup of category `k` finds once all of `rows` are folded. */
  predicate LookupAgrees(rows: seq<Op>, rule: Rule, k: string)
    requires DatesPresent(rows)
  {
    Lookup(SpendingOf(rows, rule), k)
      == if Counted(rows, rule, k)
         then Some(Entry(k, PeriodSum(rows, rule, k, Current), PeriodSum(rows, rule, k, Previous)))
         else None
  }

  /** A last row that is ignored or of another category leaves the lookup of `k` as it was. */
  lemma LookupOtherRow(rows: seq<Op>, rule: Rule, k: string)
    requires rows != [] && DatesPresent(rows)
    requires LookupAgrees(rows[..|rows| - 1], rule, k)
    requires PeriodOf(rule, rows[|rows| - 1].date.value) == Ignored || CategoryKey(rows[|rows| - 1], "Other") != k
    ensures LookupAgrees(rows, rule, k)
  {
    var n := |rows| - 1;
    var p := rows[..n];
    var last := rows[n];
    var per := PeriodOf(rule, last.date.value);
    var key := CategoryKey(last, "Other");
    var prev := SpendingOf(p, rule);
    CountedLast(rows, rule, k);
    if per == Ignored {
      assert SpendingOf(rows, rule) == prev;
    } else {
      assert SpendingOf(rows, rule) == Upsert(prev, key, Entry(key, 0, 0), AddTo(per, RowValue(last)));
    }
    assert Lookup(SpendingOf(rows, rule), k) == Lookup(prev, k);
  }

  /** A counted last row of category `k` adds its amount to the month it belongs to. */
  lemma LookupSameRow(rows: seq<Op>, rule: Rule, k: string)
    requires rows != [] && DatesPresent(rows)
    requires LookupAgrees(rows[..|rows| - 1], rule, k)
    requires PeriodOf(rule, rows[|rows| - 1].date.value) != Ignored && CategoryKey(rows[|rows| - 1], "Other") == k
    ensures LookupAgrees(rows, rule, k)
  {
    var n := |rows| - 1;
    var p := rows[..n];
    var last := rows[n];
    var per := PeriodOf(rule, last.date.value);
    var prev := SpendingOf(p, rule);
    var step := AddTo(per, RowValue(last));
    var before := Lookup(prev, k).GetOr(Entry(k, 0, 0));
    assert Counted(rows, rule, k) by {
      CountedLast(rows, rule, k);
    }
    assert before == Entry(k, PeriodSum(p, rule, k, Current), PeriodSum(p, rule, k, Previous)) by {
      if !Counted(p, rule, k) {
        PeriodSumAbsent(p, rule, k, Current);
        PeriodSumAbsent(p, rule, k, Previous);
      }
    }
    assert Lookup(SpendingOf(rows, rule), k) == Some(step(before)) by {
      assert SpendingOf(rows, rule) == Upsert(prev, k, Entry(k, 0, 0), step);
    }
    assert step(before) == Entry(k, PeriodSum(rows, rule, k, Current), PeriodSum(rows, rule, k, Previous));
  }

  /** A category has an entry exactly when one of its rows is counted, and the entry holds
      the spending of its rows in each of the two months. */
  lemma {:induction false} SpendingLookup(rows: seq<Op>, rule: Rule, k: string)
    requires DatesPresent(rows)
    ensures Lookup(SpendingOf(rows, rule), k)
         == if Counted(rows, rule, k)
            then Some(Entry(k, PeriodSum(rows, rule, k, Current), PeriodSum(rows, rule, k, Previous)))
            else None
  {
    if rows != [] {
      var n := |rows| - 1;
      SpendingLookup(rows[..n], rule, k);
      if PeriodOf(rule, rows[n].date.value) == Ignored || CategoryKey(rows[n], "Other") != k {
        LookupOtherRow(rows, rule, k);
      } else {
        LookupSameRow(rows, rule, k);
      }
    }
  }

  /** The entries of the dictionary, read one by one. */
  lemma SpendingEntries(rows: seq<Op>, rule: Rule)
    requires DatesPresent(rows)
    ensures forall e :: e in Values(SpendingOf(rows, rule)) ==>
      Counted(rows, rule, e.category)
      && e.current == PeriodSum(rows, rule, e.category, Current)
      && e.previous == PeriodSum(rows, rule, e.category, Previous)
    ensures DistinctBy(Values(SpendingOf(rows, rule)), CategoryOf)
  {
    var d := SpendingOf(rows, rule);
    var vs := Values(d);
    forall i | 0 <= i < |d|
      ensures d[i].1 == Entry(d[i].0, PeriodSum(rows, rule, d[i].0, Current), PeriodSum(rows, rule, d[i].0, Previous))
      ensures Counted(rows, rule, d[i].0)
    {
      LookupAt(d, i);
      SpendingLookup(rows, rule, d[i].0);
    }
  }

  /** The reduce itself, updating the dictionary in place row by row. */
  method Spending(rows: seq<Op>, rule: Rule) returns (acc: seq<(string, Entry)>)
    requires DatesPresent(rows)
    ensures acc == SpendingOf(rows, rule)
  {
    acc := [];
    for i := 0 to |rows|
      invariant acc == SpendingOf(rows[..i], rule)
    {
      assert rows[..i + 1][..i] == rows[..i];
      var op := rows[i];
      var p := PeriodOf(rule, op.date.value);
      var category := CategoryKey(op, "Other");
      if p != Ignored {
        acc := Upsert(acc, category, Entry(category, 0, 0), AddTo(p, RowValue(op)));
      }
    }
    assert rows[..|rows|] == rows;
  }

  function CurrentOf(e: Entry): int {
    e.current
  }

  function CategoryOf(e: Entry): string {
    e.category
  }

  /** `Object.values(spending).sort((a, b) => b.current - a.current).slice(0, 8)`: the eight
      categories that spent most this month, or all of them when there are fewer, largest
      current spending first, each with its spending in
      both months; a category left out spent no more this month than any shown. */
  method Radar(rows: seq<Op>, rule: Rule) returns (r: seq<Entry>)
    requires DatesPresent(rows)
    ensures |r| == if 8 < |Values(SpendingOf(rows, rule))| then 8 else |Values(SpendingOf(rows, rule))|
    ensures NonIncreasing(r, CurrentOf)
    ensures DistinctBy(r, CategoryOf)
    ensures forall e :: e in r ==>
      Counted(rows, rule, e.category)
      && e.current == PeriodSum(rows, rule, e.category, Current)
      && e.previous == PeriodSum(rows, rule, e.category, Previous)
    ensures forall e, f :: (e in Values(SpendingOf(rows, rule)) && e !in r && f in r) ==> e.current <= f.current
  {
    var acc := Spending(rows, rule);
    var values := Values(acc);
    r := Top(values, 8, CurrentOf);
    TopCut(values, 8, CurrentOf);
    forall e, f | e in values && e !in r && f in r ensures e.current <= f.current {
      assert CurrentOf(e) <= CurrentOf(f);
    }
    SpendingEntries(rows, rule);
    TopKeepsDistinct(values, 8, CurrentOf, CategoryOf);
  }

  /** As the chart compares months, in January no row is ever a previous-month row, so every
      `previous` is 0. */
  lemma {:induction false} JanuaryHasNoPrevious(rows: seq<Op>, today: Date, k: string)
    requires DatesValid(rows) && today.month == 1
    ensures PeriodSum(rows, MonthIndexRule(today), k, Previous) == 0
  {
    if rows != [] {
      JanuaryHasNoPrevious(rows[..|rows| - 1], today, k);
    }
  }

  /** A row of December 2024, seen on 10 January 2025: the chart ignores it, where the
      calendar rule counts it as the previous month. */
  lemma JanuaryDropsDecember()
    ensures PeriodOf(MonthIndexRule(Date(2025, 1, 10)), Date(2024, 12, 15)) == Ignored
    ensures PeriodOf(CalendarRule(Date(2025, 1, 10)), Date(2024, 12, 15)) == Previous
  {
  }

  /** A row of March 2023, seen on 10 March 2025: the chart counts it as this month's
      spending, where the calendar rule ignores it. */
  lemma OtherYearsCounted()
    ensures PeriodOf(MonthIndexRule(Date(2025, 3, 10)), Date(2023, 3, 2)) == Current
    ensures PeriodOf(CalendarRule(Date(2025, 3, 10)), Date(2023, 3, 2)) == Ignored
  {
  }

  /** The calendar rule counts exactly the rows of today's calendar month as current and the
      rows of the calendar month just before it as previous, across a change of year. */
  lemma CalendarRuleExact(today: Date, d: Date)
    requires today.Valid() && d.Valid()
    ensures PeriodOf(CalendarRule(today), d) == Current <==> MonthOf(d).Rank() == MonthOf(today).Rank()
    ensures PeriodOf(CalendarRule(today), d) == Previous <==> MonthOf(d).Rank() == MonthOf(today).Rank() - 1
  {
    RankInjective(MonthOf(d), MonthOf(today));
    RankInjective(MonthOf(d), PrevMonth(MonthOf(today)));
  }
}
