/** Monthly KPI aggregation of the admin page (frontend/src/app/admin/page.tsx, aggregateMonthlyKpis). */
module MonthlyKpis {
  import opened Sorting

  datatype Snapshot = Snapshot(date: string, metric: string, dimensions: string, value: real)

  /** The calendar month of a date: a sort key in chronological order and a title. */
  datatype Calendar = Calendar(month: string -> int, title: string -> string)

  /** The grouping key; the program joins the three parts into one string. */
  datatype Key = Key(month: int, metric: string, dimensions: string)

  datatype Entry = Entry(key: Key, title: string, value: real)

  const VIEWS := "funnel_view_event"
  const COMPLETIONS := "funnel_complete_order"
  const CONVERSION := "funnel_conversion_view_to_complete_pct"

  function KeyOf(c: Calendar, row: Snapshot): Key {
    Key(c.month(row.date), row.metric, row.dimensions)
  }

  // --------------------------------------------------------------- what is to be computed

  /** Rows of one group agree in month, metric and dimensions. */
  predicate InGroup(c: Calendar, row: Snapshot, key: Key) {
    c.month(row.date) == key.month && row.metric == key.metric && row.dimensions == key.dimensions
  }

  /** The sum of a group. */
  function GroupTotal(c: Calendar, rows: seq<Snapshot>, key: Key): real {
    if rows == [] then 0.0
    else GroupTotal(c, rows[..|rows| - 1], key) + (if InGroup(c, rows[|rows| - 1], key) then rows[|rows| - 1].value else 0.0)
  }

  /** The month's total of a metric over all dimensions. */
  function MonthTotal(c: Calendar, rows: seq<Snapshot>, month: int, metric: string): real {
    if rows == [] then 0.0
    else
      var row := rows[|rows| - 1];
      MonthTotal(c, rows[..|rows| - 1], month, metric)
      + (if c.month(row.date) == month && row.metric == metric then row.value else 0.0)
  }

  /** Sums are sums; the conversion rate is recomputed from the month's views and completions. */
  function ValueFor(c: Calendar, rows: seq<Snapshot>, key: Key): real {
    if key.metric != "funnel_conversion_view_to_complete_pct" then GroupTotal(c, rows, key) else
    var views := MonthTotal(c, rows, key.month, "funnel_view_event");
    var completions := MonthTotal(c, rows, key.month, "funnel_complete_order");
    if views > 0.0 then completions / views * 100.0 else 0.0
  }

  /** Position of the first row of a group, or the number of rows. */
  function FirstOf(c: Calendar, rows: seq<Snapshot>, key: Key): (i: nat)
    ensures i <= |rows|
  {
    if rows == [] then 0 else
    var n := |rows| - 1;
    var i := FirstOf(c, rows[..n], key);
    if i < n then i else if InGroup(c, rows[n], key) then n else |rows|
  }

  lemma {:induction false} FirstOfIsFirst(c: Calendar, rows: seq<Snapshot>, key: Key)
    ensures var i := FirstOf(c, rows, key);
            && (i < |rows| ==> InGroup(c, rows[i], key))
            && (forall j :: 0 <= j < i ==> !InGroup(c, rows[j], key))
    decreases |rows|
  {
    if rows != [] {
      FirstOfIsFirst(c, rows[..|rows| - 1], key);
    }
  }

  /** The entry stands for a group with rows, under the title of its first row. */
  predicate Represents(c: Calendar, rows: seq<Snapshot>, e: Entry) {
    FirstOf(c, rows, e.key) < |rows| && e.title == c.title(rows[FirstOf(c, rows, e.key)].date)
  }

  function First(c: Calendar, rows: seq<Snapshot>): Key -> nat {
    key => FirstOf(c, rows, key)
  }

  predicate Increasing(position: Key -> nat, entries: seq<Entry>) {
    forall i, j :: 0 <= i < j < |entries| ==> position(entries[i].key) < position(entries[j].key)
  }

  /** Newest month first, and within a month by position; so no group has two entries. */
  predicate NewestMonthFirst(position: Key -> nat, entries: seq<Entry>) {
    forall i, j :: 0 <= i < j < |entries| ==>
      || entries[i].key.month > entries[j].key.month
      || (entries[i].key.month == entries[j].key.month && position(entries[i].key) < position(entries[j].key))
  }

  function KeysOf(entries: seq<Entry>): set<Key> {
    set e | e in entries :: e.key
  }

  predicate Covers(c: Calendar, rows: seq<Snapshot>, entries: seq<Entry>) {
    forall row :: row in rows ==> Key(c.month(row.date), row.metric, row.dimensions) in KeysOf(entries)
  }

  predicate IsEntry(c: Calendar, rows: seq<Snapshot>, value: Key -> real, e: Entry) {
    Represents(c, rows, e) && e.value == value(e.key)
  }

  /** One entry per group with rows, carrying the given value. */
  predicate Summarises(c: Calendar, rows: seq<Snapshot>, value: Key -> real, entries: seq<Entry>) {
    && NewestMonthFirst(First(c, rows), entries) && Covers(c, rows, entries)
    && (forall i :: 0 <= i < |entries| ==> IsEntry(c, rows, value, entries[i]))
  }

  function Totals(c: Calendar, rows: seq<Snapshot>): Key -> real {
    key => GroupTotal(c, rows, key)
  }

  function Values(c: Calendar, rows: seq<Snapshot>): Key -> real {
    key => ValueFor(c, rows, key)
  }

  // ------------------------------------------------------------------------------ loops

  /** Position of the entry of a group in an insertion-ordered map, if it has one. */
  function Find(entries: seq<Entry>, key: Key): (i: nat)
    ensures i <= |entries| && (i < |entries| ==> entries[i].key == key)
    ensures i == |entries| ==> key !in KeysOf(entries)
  {
    if entries == [] then 0 else if entries[0].key == key then 0 else 1 + Find(entries[1..], key)
  }

  function Bump(c: Calendar, sums: seq<Entry>, row: Snapshot): seq<Entry> {
    var k := Find(sums, KeyOf(c, row));
    if k < |sums| then sums[k := sums[k].(value := sums[k].value + row.value)]
    else sums + [Entry(KeyOf(c, row), c.title(row.date), row.value)]
  }

  /** What the first loop has built: one entry per group, in insertion order, with its running sum. */
  predicate Sums(c: Calendar, rows: seq<Snapshot>, sums: seq<Entry>) {
    && Increasing(First(c, rows), sums) && Covers(c, rows, sums)
    && (forall i :: 0 <= i < |sums| ==> IsEntry(c, rows, Totals(c, rows), sums[i]))
  }

  lemma GroupsGrow(c: Calendar, rows: seq<Snapshot>, row: Snapshot, key: Key)
    ensures var f := FirstOf(c, rows, key);
            FirstOf(c, rows + [row], key) == if f == |rows| && KeyOf(c, row) != key then f + 1 else f
    ensures GroupTotal(c, rows + [row], key) == GroupTotal(c, rows, key) + (if KeyOf(c, row) == key then row.value else 0.0)
  {
    assert (rows + [row])[..|rows|] == rows;
  }

  lemma MonthsGrow(c: Calendar, rows: seq<Snapshot>, row: Snapshot)
    ensures forall month, metric ::
              MonthTotal(c, rows + [row], month, metric)
              == MonthTotal(c, rows, month, metric) + (if c.month(row.date) == month && row.metric == metric then row.value else 0.0)
  {
    assert (rows + [row])[..|rows|] == rows;
  }

  /** A group without rows has sum zero. */
  lemma {:induction false} EmptyGroup(c: Calendar, rows: seq<Snapshot>, key: Key)
    requires FirstOf(c, rows, key) == |rows|
    ensures GroupTotal(c, rows, key) == 0.0
    decreases |rows|
  {
    if rows != [] {
      EmptyGroup(c, rows[..|rows| - 1], key);
    }
  }

  /** The entry of another group stays right when a row follows; the row's own entry takes its value. */
  lemma EntryGrows(c: Calendar, rows: seq<Snapshot>, row: Snapshot, e: Entry)
    requires IsEntry(c, rows, Totals(c, rows), e)
    ensures FirstOf(c, rows + [row], e.key) == FirstOf(c, rows, e.key)
    ensures IsEntry(c, rows + [row], Totals(c, rows + [row]), if e.key == KeyOf(c, row) then e.(value := e.value + row.value) else e)
  {
    GroupsGrow(c, rows, row, e.key);
  }

  lemma OwnEntry(c: Calendar, rows: seq<Snapshot>, row: Snapshot, sums: seq<Entry>)
    requires Covers(c, rows, sums) && KeyOf(c, row) !in KeysOf(sums)
    ensures FirstOf(c, rows + [row], KeyOf(c, row)) == |rows|
    ensures IsEntry(c, rows + [row], Totals(c, rows + [row]), Entry(KeyOf(c, row), c.title(row.date), row.value))
  {
    NoEntryNoRow(c, rows, sums, KeyOf(c, row));
    GroupsGrow(c, rows, row, KeyOf(c, row));
    EmptyGroup(c, rows, KeyOf(c, row));
  }

  lemma OrderGrows(before: Key -> nat, after: Key -> nat, n: nat, sums: seq<Entry>, sums': seq<Entry>)
    requires Increasing(before, sums) && |sums| <= |sums'| <= |sums| + 1
    requires forall i :: 0 <= i < |sums| ==> after(sums'[i].key) == before(sums[i].key) < n
    requires |sums'| > |sums| ==> after(sums'[|sums|].key) == n
    ensures Increasing(after, sums')
  {
  }

  lemma SumsGrow(c: Calendar, rows: seq<Snapshot>, row: Snapshot, sums: seq<Entry>)
    requires Sums(c, rows, sums)
    ensures Sums(c, rows + [row], Bump(c, sums, row))
  {
    var more, sums', key := rows + [row], Bump(c, sums, row), KeyOf(c, row);
    var k := Find(sums, key);
    if k == |sums| {
      OwnEntry(c, rows, row, sums);
    }
    forall i | 0 <= i < |sums|
      ensures sums'[i].key == sums[i].key && FirstOf(c, more, sums[i].key) == FirstOf(c, rows, sums[i].key) < |rows|
      ensures IsEntry(c, more, Totals(c, more), sums'[i])
    {
      EntryGrows(c, rows, row, sums[i]);
      assert k < |sums| && sums[i].key == key ==> FirstOf(c, rows, sums[i].key) == FirstOf(c, rows, sums[k].key);
      assert sums[i].key in KeysOf(sums);
    }
    OrderGrows(First(c, rows), First(c, more), |rows|, sums, sums');
    BumpCovers(c, rows, row, sums);
  }

  lemma NoEntryNoRow(c: Calendar, rows: seq<Snapshot>, sums: seq<Entry>, key: Key)
    requires Covers(c, rows, sums) && key !in KeysOf(sums)
    ensures FirstOf(c, rows, key) == |rows|
  {
    FirstOfIsFirst(c, rows, key);
    forall i | 0 <= i < |rows| ensures !InGroup(c, rows[i], key) {
      assert rows[i] in rows;
    }
  }

  lemma BumpCovers(c: Calendar, rows: seq<Snapshot>, row: Snapshot, sums: seq<Entry>)
    requires Covers(c, rows, sums)
    ensures Covers(c, rows + [row], Bump(c, sums, row))
  {
    var sums' := Bump(c, sums, row);
    var k := Find(sums, KeyOf(c, row));
    assert sums'[k] in sums';
    forall key | key in KeysOf(sums) ensures key in KeysOf(sums') {
      var i :| 0 <= i < |sums| && sums[i].key == key;
      assert sums'[i] in sums';
    }
  }

  /** The updates of the first loop's body. */
  method UpdateEntry(c: Calendar, sums: seq<Entry>, row: Snapshot) returns (r: seq<Entry>)
    ensures r == Bump(c, sums, row)
  {
    var k := Find(sums, KeyOf(c, row));
    if k < |sums| {
      r := sums[k := sums[k].(value := sums[k].value + row.value)];
    } else {
      r := sums + [Entry(KeyOf(c, row), c.title(row.date), row.value)];
    }
  }

  /** The body of the first loop: the entries of the rows so far become those of one row more. */
  method AddRow(c: Calendar, ghost rows: seq<Snapshot>, sums: seq<Entry>, row: Snapshot) returns (r: seq<Entry>)
    requires Sums(c, rows, sums)
    ensures Sums(c, rows + [row], r)
  {
    SumsGrow(c, rows, row, sums);
    r := UpdateEntry(c, sums, row);
  }

  /** The first loop: insertion order, one running sum per group. */
  method SumGroups(c: Calendar, rows: seq<Snapshot>) returns (sums: seq<Entry>)
    ensures Sums(c, rows, sums)
  {
    sums := [];
    for n := 0 to |rows|
      invariant Sums(c, rows[..n], sums)
    {
      assert rows[..n + 1] == rows[..n] + [rows[n]];
      sums := AddRow(c, rows[..n], sums, rows[n]);
    }
    assert rows[..|rows|] == rows;
  }

  datatype Funnel = Funnel(view: real, complete: real)

  /** The views and completions of every month that has rows. */
  ghost predicate Funnels(c: Calendar, rows: seq<Snapshot>, funnels: map<int, Funnel>) {
    && (forall m :: m in funnels ==> funnels[m] == Funnel(MonthTotal(c, rows, m, VIEWS), MonthTotal(c, rows, m, COMPLETIONS)))
    && (forall m :: m !in funnels ==> MonthTotal(c, rows, m, VIEWS) == 0.0 && MonthTotal(c, rows, m, COMPLETIONS) == 0.0)
    && (forall row :: row in rows ==> c.month(row.date) in funnels)
  }

  /** The body of the second loop. */
  method CountRow(c: Calendar, ghost rows: seq<Snapshot>, funnels: map<int, Funnel>, row: Snapshot) returns (r: map<int, Funnel>)
    requires Funnels(c, rows, funnels)
    ensures Funnels(c, rows + [row], r)
  {
    MonthsGrow(c, rows, row);
    var month := c.month(row.date);
    var bucket := if month in funnels then funnels[month] else Funnel(0.0, 0.0);
    if row.metric == VIEWS {
      bucket := bucket.(view := bucket.view + row.value);
    }
    if row.metric == COMPLETIONS {
      bucket := bucket.(complete := bucket.complete + row.value);
    }
    r := funnels[month := bucket];
  }

  /** The second loop: views and completions per month. */
  method CountFunnels(c: Calendar, rows: seq<Snapshot>) returns (funnels: map<int, Funnel>)
    ensures Funnels(c, rows, funnels)
  {
    funnels := map[];
    for n := 0 to |rows|
      invariant Funnels(c, rows[..n], funnels)
    {
      assert rows[..n + 1] == rows[..n] + [rows[n]];
      funnels := CountRow(c, rows[..n], funnels, rows[n]);
    }
    assert rows[..|rows|] == rows;
  }

  /** What the counts of a month make of an entry's value. */
  function Conversion(counts: Funnel): real {
    if counts.view > 0.0 then counts.complete / counts.view * 100.0 else 0.0
  }

  /** The third loop: conversion rates are recomputed. */
  method SetConversions(c: Calendar, rows: seq<Snapshot>, sums: seq<Entry>, funnels: map<int, Funnel>) returns (entries: seq<Entry>)
    requires forall i :: 0 <= i < |sums| ==> IsEntry(c, rows, Totals(c, rows), sums[i]) && sums[i].key.month in funnels
    requires forall m :: m in funnels ==> funnels[m] == Funnel(MonthTotal(c, rows, m, VIEWS), MonthTotal(c, rows, m, COMPLETIONS))
    ensures |entries| == |sums|
    ensures forall i :: 0 <= i < |sums| ==> entries[i] == sums[i].(value := Values(c, rows)(sums[i].key))
  {
    entries := sums;
    for n := 0 to |sums|
      invariant |entries| == |sums|
      invariant forall i :: n <= i < |sums| ==> entries[i] == sums[i]
      invariant forall i :: 0 <= i < n ==> entries[i] == sums[i].(value := Values(c, rows)(sums[i].key))
    {
      var e := entries[n];
      assert IsEntry(c, rows, Totals(c, rows), e);
      if e.key.metric == CONVERSION {
        entries := entries[n := e.(value := Conversion(funnels[e.key.month]))];
      }
    }
  }

  /** One entry per month, metric and dimensions, newest month first and otherwise in order of first
      appearance; sums for every metric but the conversion rate, which comes from the month's totals. */
  method AggregateMonthlyKpis(c: Calendar, rows: seq<Snapshot>) returns (r: seq<Entry>)
    ensures Summarises(c, rows, Values(c, rows), r)
  {
    var sums := SumGroups(c, rows);
    var funnels := CountFunnels(c, rows);
    forall i | 0 <= i < |sums| ensures sums[i].key.month in funnels {
      HasRowInMonth(c, rows, sums[i]);
    }
    var entries := SetConversions(c, rows, sums, funnels);
    r := Sort(entries, NewestFirst);
    ResultSummarises(c, rows, Values(c, rows), sums, entries);
  }

  lemma HasRowInMonth(c: Calendar, rows: seq<Snapshot>, e: Entry)
    requires Represents(c, rows, e)
    ensures exists row :: row in rows && c.month(row.date) == e.key.month
  {
    FirstOfIsFirst(c, rows, e.key);
    assert rows[FirstOf(c, rows, e.key)] in rows;
  }

  function NewestFirst(e: Entry): int { -e.key.month }

  lemma ResultIsOrdered(first: Key -> nat, sums: seq<Entry>, entries: seq<Entry>)
    requires Increasing(first, sums) && |entries| == |sums|
    requires forall i :: 0 <= i < |sums| ==> entries[i].key == sums[i].key
    ensures NewestMonthFirst(first, Sort(entries, NewestFirst))
  {
    var r, position := Sort(entries, NewestFirst), (e: Entry) => first(e.key);
    SortIsStable(entries, NewestFirst, position);
    assert forall i, j :: 0 <= i < j < |r| ==> Precedes(r[i], r[j], NewestFirst, position);
  }

  lemma ResultCovers(c: Calendar, rows: seq<Snapshot>, sums: seq<Entry>, entries: seq<Entry>, r: seq<Entry>)
    requires Covers(c, rows, sums) && |entries| == |sums| && multiset(r) == multiset(entries)
    requires forall i :: 0 <= i < |sums| ==> entries[i].key == sums[i].key
    ensures Covers(c, rows, r)
  {
    forall key | key in KeysOf(sums) ensures key in KeysOf(r) {
      var i :| 0 <= i < |sums| && sums[i].key == key;
      assert entries[i] in multiset(r);
    }
  }

  lemma ResultSummarises(c: Calendar, rows: seq<Snapshot>, value: Key -> real, sums: seq<Entry>, entries: seq<Entry>)
    requires Sums(c, rows, sums) && |entries| == |sums|
    requires forall i :: 0 <= i < |sums| ==> entries[i] == sums[i].(value := value(sums[i].key))
    ensures Summarises(c, rows, value, Sort(entries, NewestFirst))
  {
    var r := Sort(entries, NewestFirst);
    SortSorts(entries, NewestFirst);
    ResultIsOrdered(First(c, rows), sums, entries);
    ResultCovers(c, rows, sums, entries, r);
    forall j | 0 <= j < |r| ensures IsEntry(c, rows, value, r[j]) {
      assert r[j] in multiset(entries);
      var i :| 0 <= i < |entries| && entries[i] == r[j];
      assert Represents(c, rows, sums[i]);
    }
  }

  // ----------------------------------------------------------------------- conservation

  predicate Distinct(entries: seq<Entry>) {
    forall i, j :: 0 <= i < j < |entries| ==> entries[i].key != entries[j].key
  }

  function MetricTotal(rows: seq<Snapshot>, metric: string): real {
    if rows == [] then 0.0
    else MetricTotal(rows[..|rows| - 1], metric) + (if rows[|rows| - 1].metric == metric then rows[|rows| - 1].value else 0.0)
  }

  function EntryTotal(entries: seq<Entry>, metric: string): real {
    if entries == [] then 0.0
    else (if entries[0].key.metric == metric then entries[0].value else 0.0) + EntryTotal(entries[1..], metric)
  }

  /** The entries with every value replaced by the group's sum over the given rows. */
  function Revalued(c: Calendar, rows: seq<Snapshot>, entries: seq<Entry>): seq<Entry> {
    if entries == [] then [] else [entries[0].(value := GroupTotal(c, rows, entries[0].key))] + Revalued(c, rows, entries[1..])
  }

  /** One more row adds its value to the total of its metric, once. */
  lemma {:induction false} OneMoreRow(c: Calendar, rows: seq<Snapshot>, row: Snapshot, entries: seq<Entry>, metric: string)
    requires Distinct(entries)
    ensures EntryTotal(Revalued(c, rows + [row], entries), metric)
            == EntryTotal(Revalued(c, rows, entries), metric)
               + (if row.metric == metric && KeyOf(c, row) in KeysOf(entries) then row.value else 0.0)
    decreases |entries|
  {
    if entries != [] {
      assert (rows + [row])[..|rows|] == rows;
      OneMoreRow(c, rows, row, entries[1..], metric);
      assert entries == [entries[0]] + entries[1..];
      assert KeysOf(entries) == {entries[0].key} + KeysOf(entries[1..]);
    }
  }

  lemma {:induction false} RevaluedNothing(c: Calendar, entries: seq<Entry>, metric: string)
    ensures EntryTotal(Revalued(c, [], entries), metric) == 0.0
    decreases |entries|
  {
    if entries != [] {
      RevaluedNothing(c, entries[1..], metric);
    }
  }

  lemma {:induction false} RevaluedTotals(c: Calendar, rows: seq<Snapshot>, entries: seq<Entry>, metric: string)
    requires Distinct(entries)
    requires Covers(c, rows, entries)
    ensures EntryTotal(Revalued(c, rows, entries), metric) == MetricTotal(rows, metric)
    decreases |rows|
  {
    if rows == [] {
      RevaluedNothing(c, entries, metric);
    } else {
      var less, row := rows[..|rows| - 1], rows[|rows| - 1];
      assert rows == less + [row];
      assert row in rows && forall r :: r in less ==> r in rows;
      OneMoreRow(c, less, row, entries, metric);
      RevaluedTotals(c, less, entries, metric);
    }
  }

  lemma {:induction false} RevaluedIsIdentity(c: Calendar, rows: seq<Snapshot>, entries: seq<Entry>, metric: string)
    requires metric != CONVERSION && forall i :: 0 <= i < |entries| ==> entries[i].value == ValueFor(c, rows, entries[i].key)
    ensures EntryTotal(Revalued(c, rows, entries), metric) == EntryTotal(entries, metric)
    decreases |entries|
  {
    if entries != [] {
      RevaluedIsIdentity(c, rows, entries[1..], metric);
    }
  }

  /** Grouping conserves the total of every metric that is summed. */
  lemma TotalsAreConserved(c: Calendar, rows: seq<Snapshot>, entries: seq<Entry>, metric: string)
    requires Summarises(c, rows, Values(c, rows), entries) && metric != CONVERSION
    ensures EntryTotal(entries, metric) == MetricTotal(rows, metric)
  {
    RevaluedIsIdentity(c, rows, entries, metric);
    RevaluedTotals(c, rows, entries, metric);
  }

  /** Conversion entries are not summed: they show the share of the month's views that led to a
      completed order, in per cent, or 0 without views. */
  lemma ConversionIsRecomputed(c: Calendar, rows: seq<Snapshot>, e: Entry)
    requires IsEntry(c, rows, Values(c, rows), e) && e.key.metric == "funnel_conversion_view_to_complete_pct"
    ensures var views := MonthTotal(c, rows, e.key.month, "funnel_view_event");
            var completed := MonthTotal(c, rows, e.key.month, "funnel_complete_order");
            if views > 0.0 then e.value * views == completed * 100.0 else e.value == 0.0
  {
    ConversionOf(c, rows, e.key);
  }

  lemma ConversionOf(c: Calendar, rows: seq<Snapshot>, key: Key)
    requires key.metric == "funnel_conversion_view_to_complete_pct"
    ensures var views, completed := MonthTotal(c, rows, key.month, "funnel_view_event"), MonthTotal(c, rows, key.month, "funnel_complete_order");
            if views > 0.0 then ValueFor(c, rows, key) * views == completed * 100.0 else ValueFor(c, rows, key) == 0.0
  {
    var views, completed := MonthTotal(c, rows, key.month, "funnel_view_event"), MonthTotal(c, rows, key.month, "funnel_complete_order");
    if views > 0.0 {
      QuotientTimes(completed, views, 100.0);
    }
  }

  lemma QuotientTimes(a: real, b: real, k: real)
    requires b != 0.0
    ensures a / b * k * b == a * k
  {
    var q := a / b;
    assert q * b == a;
    assert q * k * b == q * b * k;
  }
}
