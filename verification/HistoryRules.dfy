/**
 The rules of an execution history spelled out on the observed rows themselves: which history is accepted,
 what its report holds, and with which code any other is refused.
 */
module HistoryRules {
  import opened Wrappers
  import opened Ordering
  import opened History
  import opened HistoryLaws

  // ---- Rows ----

  predicate RunsStill(status: Status) {
    status == Running || status == Processing
  }

  /** The end is a time not before the start, or missing while the execution still runs. */
  predicate EndFits(d: Details)
    requires d.start.Time?
  {
    (d.end == NoTime && RunsStill(d.status)) || (d.end.Time? && d.start.us <= d.end.us)
  }

  /** A named row of a known status, with times that fit and lie in the past. */
  predicate WellFormed(q: Query, row: RawRow) {
    row.RawRow? && row.name.Some? && row.name.value != "" && row.details.Some? &&
    var d := row.details.value;
    d.status != Unofficial && d.start.Time? && d.start.us <= q.observedAt && EndFits(d) &&
    (d.end.Time? ==> d.end.us <= q.observedAt)
  }

  function StatusOf(q: Query, row: RawRow): Status
    requires WellFormed(q, row)
  {
    row.details.value.status
  }

  function StartOf(q: Query, row: RawRow): int
    requires WellFormed(q, row)
  {
    row.details.value.start.us
  }

  function EndOf(q: Query, row: RawRow): Option<int>
    requires WellFormed(q, row)
  {
    if row.details.value.end.Time? then Some(row.details.value.end.us) else None
  }

  /** The item of a row: its times cut to whole seconds. */
  function ItemOf(q: Query, row: RawRow): Item
    requires WellFormed(q, row)
  {
    Item(row.name.value, StatusOf(q, row), StartOf(q, row) / 1000000,
         if EndOf(q, row).Some? then Some(EndOf(q, row).value / 1000000) else None)
  }

  lemma ReadExactly(q: Query, row: RawRow)
    ensures Fine(q, row) <==> WellFormed(q, row)
    ensures Fine(q, row) ==>
      Read(q, row) == Parsed(row.name.value, StatusOf(q, row), StartOf(q, row), EndOf(q, row)) &&
      Project(Read(q, row)) == ItemOf(q, row)
  {
  }

  lemma RowsAreNamed(q: Query, rows: seq<RawRow>)
    requires AllWellFormed(q, rows)
    ensures forall i | 0 <= i < |rows| :: rows[i].RawRow? && rows[i].name.Some?
  {
  }

  // ---- Acceptance ----

  /** The bound execution: succeeded, and ended by the time it was recorded. */
  predicate IsBound(q: Query, row: RawRow)
    requires WellFormed(q, row)
  {
    row.name == Some(q.boundName) && StatusOf(q, row) == SucceededRun && EndOf(q, row).Some? &&
    EndOf(q, row).value <= q.recordedAt
  }

  /** Finished, one way or another, by the time the bound execution started. */
  predicate Before(q: Query, bound: RawRow, row: RawRow)
    requires WellFormed(q, bound) && WellFormed(q, row)
  {
    StatusOf(q, row) in [SucceededRun, FailedRun, Stopped, Degraded] && EndOf(q, row).Some? &&
    EndOf(q, row).value <= StartOf(q, bound)
  }

  /**
   Of a scheduled job, started at or after the end of the bound execution, and either succeeded or still
   running for no longer than the timeout and two minutes.
   */
  predicate After(q: Query, bound: RawRow, row: RawRow)
    requires WellFormed(q, bound) && WellFormed(q, row) && EndOf(q, bound).Some?
  {
    !Before(q, bound, row) && (q.role == SessionMaintenance || q.role == StorageMaintenance) &&
    EndOf(q, bound).value <= StartOf(q, row) &&
    ((StatusOf(q, row) == SucceededRun && EndOf(q, row).Some?) ||
     (RunsStill(StatusOf(q, row)) && EndOf(q, row).None? &&
      q.observedAt - StartOf(q, row) <= (q.replicaTimeout + 120) * 1000000))
  }

  predicate QueryFine(q: Query) {
    q.role in [PrepareJob, SeedJob, SessionMaintenance, StorageMaintenance] && q.boundSucceeded &&
    q.replicaTimeout > 0 && q.recordedAt <= q.observedAt
  }

  predicate AllWellFormed(q: Query, rows: seq<RawRow>) {
    forall i | 0 <= i < |rows| :: WellFormed(q, rows[i])
  }

  predicate NamesDiffer(rows: seq<RawRow>) {
    forall i, j | 0 <= i < j < |rows| :: NameOf(rows[i]) != NameOf(rows[j])
  }

  predicate PlacesAll(q: Query, rows: seq<RawRow>, bound: RawRow)
    requires AllWellFormed(q, rows) && WellFormed(q, bound) && IsBound(q, bound)
  {
    forall i | 0 <= i < |rows| && rows[i].name != Some(q.boundName) ::
      Before(q, bound, rows[i]) || After(q, bound, rows[i])
  }

  predicate Accepted(q: Query, rows: seq<RawRow>) {
    QueryFine(q) && AllWellFormed(q, rows) && NamesDiffer(rows) &&
    exists k | 0 <= k < |rows| :: IsBound(q, rows[k]) && PlacesAll(q, rows, rows[k])
  }

  lemma PlacesExactly(q: Query, bound: RawRow, row: RawRow)
    requires WellFormed(q, bound) && WellFormed(q, row)
    ensures Fine(q, bound) && Fine(q, row)
    ensures ValidBound(q, Read(q, bound)) <==> IsBound(q, bound)
    ensures IsHistorical(Read(q, bound), Read(q, row)) <==> Before(q, bound, row)
    ensures EndOf(q, bound).Some? ==>
      Read(q, bound).end.Some? && (IsLater(q, Read(q, bound), Read(q, row)) <==> After(q, bound, row))
  {
    ReadExactly(q, bound);
    ReadExactly(q, row);
  }

  lemma AllExactly(q: Query, rows: seq<RawRow>)
    ensures AllFine(q, rows) <==> AllWellFormed(q, rows)
    ensures DistinctNames(rows) <==> NamesDiffer(rows)
  {
    hide Fine, WellFormed;
    forall i | 0 <= i < |rows| { ReadExactly(q, rows[i]); }
  }

  lemma AnchorsExactly(q: Query, rows: seq<RawRow>, k: nat)
    requires AllFine(q, rows) && AllWellFormed(q, rows) && k < |rows|
    ensures Anchors(q, rows, rows[k]) <==> IsBound(q, rows[k]) && PlacesAll(q, rows, rows[k])
  {
    hide Fine, WellFormed, IsHistorical, IsLater, Before, After, ValidBound, Read, EndOf;
    PlacesExactly(q, rows[k], rows[k]);
    if IsBound(q, rows[k]) {
      assert EndOf(q, rows[k]).Some?;
      forall i | 0 <= i < |rows| { PlacesExactly(q, rows[k], rows[i]); }
    }
  }

  /** Which histories are accepted, on their rows alone. */
  lemma HistoryExactly(q: Query, rows: seq<RawRow>)
    ensures Evaluate(q, rows).Ok? <==> Accepted(q, rows)
  {
    hide Evaluate, Anchors, PlacesAll, IsBound, AllFine, AllWellFormed, DistinctNames, NamesDiffer;
    AcceptedExactly(q, rows);
    AllExactly(q, rows);
    assert ValidQuery(q) <==> QueryFine(q);
    if AllFine(q, rows) {
      forall k: nat | k < |rows| { AnchorsExactly(q, rows, k); }
    }
  }

  // ---- The report ----

  /** In the order of starting seconds, and of names within a second. */
  predicate InOrder(items: seq<Item>) {
    forall i, j | 0 <= i < j < |items| ::
      items[i].startSecond < items[j].startSecond ||
      (items[i].startSecond == items[j].startSecond && TextLe(items[i].name, items[j].name))
  }

  predicate FromBefore(q: Query, rows: seq<RawRow>, k: nat, item: Item)
    requires AllWellFormed(q, rows) && k < |rows|
  {
    exists i | 0 <= i < |rows| ::
      rows[i].name != Some(q.boundName) && Before(q, rows[k], rows[i]) && ItemOf(q, rows[i]) == item
  }

  predicate FromAfter(q: Query, rows: seq<RawRow>, k: nat, item: Item)
    requires AllWellFormed(q, rows) && k < |rows| && EndOf(q, rows[k]).Some?
  {
    exists i | 0 <= i < |rows| ::
      rows[i].name != Some(q.boundName) && After(q, rows[k], rows[i]) && ItemOf(q, rows[i]) == item
  }

  /** What a report holds: the bound row, the rows before it and the rows after it, each list in order. */
  predicate Reports(q: Query, rows: seq<RawRow>, k: nat, report: Report)
    requires AllWellFormed(q, rows) && k < |rows|
  {
    IsBound(q, rows[k]) && report.bound == ItemOf(q, rows[k]) &&
    InOrder(report.historical) && InOrder(report.later) &&
    1 + |report.historical| + |report.later| == |rows| &&
    (forall i | 0 <= i < |rows| && rows[i].name != Some(q.boundName) ::
       if Before(q, rows[k], rows[i]) then ItemOf(q, rows[i]) in report.historical
       else ItemOf(q, rows[i]) in report.later) &&
    (forall item | item in report.historical :: FromBefore(q, rows, k, item)) &&
    (forall item | item in report.later :: FromAfter(q, rows, k, item))
  }

  /** The report of an accepted history, from its rows. */
  lemma ReportExactly(q: Query, rows: seq<RawRow>)
    requires Evaluate(q, rows).Ok?
    ensures AllWellFormed(q, rows) && exists k | 0 <= k < |rows| :: Reports(q, rows, k, Evaluate(q, rows).value)
  {
    hide Evaluate, AllWellFormed, AllFine, IsBound, Before, After, ItemOf, FromBefore, FromAfter, EndOf, InOrder,
      Chosen;
    var k := ChosenBound(q, rows);
    ReportCounts(q, rows, k);
    OrderExactly(q, rows);
    RowsAreReported(q, rows, k);
    RowsAreNamed(q, rows);
    forall item {
      ItemIsFrom(q, rows, k, item);
    }
    assert Reports(q, rows, k, Evaluate(q, rows).value);
  }

  lemma ChosenBound(q: Query, rows: seq<RawRow>) returns (k: nat)
    requires Evaluate(q, rows).Ok?
    ensures AllWellFormed(q, rows) && AllFine(q, rows) && k < |rows| && Chosen(q, rows, k)
    ensures IsBound(q, rows[k]) && EndOf(q, rows[k]).Some? && Evaluate(q, rows).value.bound == ItemOf(q, rows[k])
  {
    hide Evaluate, WellFormed, Fine, IsBound, ItemOf, Divide, ValidBound, Read, EndOf, Project, Named, IsLater,
      IsHistorical, Before, After;
    AcceptedAreFine(q, rows);
    k := AcceptedBound(q, rows);
    ParseAllExactly(q, rows);
    BoundEnded(q, ParseAll(q, rows).value[k]);
    PlacesExactly(q, rows[k], rows[k]);
    ReadExactly(q, rows[k]);
    BoundHasEnd(q, rows[k]);
  }

  lemma BoundHasEnd(q: Query, row: RawRow)
    requires WellFormed(q, row) && IsBound(q, row)
    ensures EndOf(q, row).Some?
  {
  }

  lemma AcceptedAreFine(q: Query, rows: seq<RawRow>)
    requires Evaluate(q, rows).Ok?
    ensures AllWellFormed(q, rows) && AllFine(q, rows) && NamesDiffer(rows)
  {
    hide AllFine, AllWellFormed, DistinctNames, NamesDiffer;
    AllExactly(q, rows);
    ParseAllExactly(q, rows);
  }

  lemma OrderExactly(q: Query, rows: seq<RawRow>)
    requires Evaluate(q, rows).Ok?
    ensures InOrder(Evaluate(q, rows).value.historical) && InOrder(Evaluate(q, rows).value.later)
  {
    hide Evaluate;
    ReportIsOrdered(q, rows);
  }

  /** The chosen execution, as the report knows it. */
  predicate Chosen(q: Query, rows: seq<RawRow>, k: nat) {
    k < |rows| && ParseAll(q, rows).Ok? && |ParseAll(q, rows).value| == |rows| &&
    var parsed := ParseAll(q, rows).value; var b := parsed[k];
    ValidBound(q, b) && b.end.Some? && Named(parsed, q.boundName) == [b] && DistinctParsed(parsed) &&
    Divide(q, b, parsed).Some? &&
    Evaluate(q, rows) == Ok(Report(Project(b), Sort(ItemLe, Divide(q, b, parsed).value.historical),
                                   Sort(ItemLe, Divide(q, b, parsed).value.later)))
  }

  lemma {:induction false} ItemsLength(parsed: seq<Parsed>)
    ensures |Items(parsed)| == |parsed|
  {
    if parsed != [] { ItemsLength(parsed[..|parsed| - 1]); }
  }

  lemma ReportCounts(q: Query, rows: seq<RawRow>, k: nat)
    requires Chosen(q, rows, k)
    ensures var report := Evaluate(q, rows).value;
      1 + |report.historical| + |report.later| == |rows|
  {
    hide Divide, Evaluate, Project;
    var parsed := ParseAll(q, rows).value;
    var b := parsed[k];
    var split := Divide(q, b, parsed).value;
    DivideConserves(q, b, parsed);
    ItemsLength(parsed);
    ItemsLength([b]);
    SortLength(split.historical);
    SortLength(split.later);
    assert |multiset(split.historical) + multiset(split.later) + multiset(Items([b]))| ==
           |split.historical| + |split.later| + 1;
    assert |multiset(Items(parsed))| == |rows|;
  }

  lemma SortLength(items: seq<Item>)
    ensures |Sort(ItemLe, items)| == |items|
  {
    assert |multiset(Sort(ItemLe, items))| == |multiset(items)|;
  }

  lemma RowsAreReported(q: Query, rows: seq<RawRow>, k: nat)
    requires AllWellFormed(q, rows) && AllFine(q, rows) && k < |rows| && Chosen(q, rows, k)
    requires EndOf(q, rows[k]).Some? && Evaluate(q, rows).Ok?
    ensures var report := Evaluate(q, rows).value;
      forall i | 0 <= i < |rows| && rows[i].RawRow? && rows[i].name != Some(q.boundName) ::
        if Before(q, rows[k], rows[i]) then ItemOf(q, rows[i]) in report.historical
        else ItemOf(q, rows[i]) in report.later
  {
    hide Evaluate, WellFormed, Fine, Chosen, Before, After, ItemOf, EndOf;
    forall i | 0 <= i < |rows| && rows[i].RawRow? && rows[i].name != Some(q.boundName)
      ensures if Before(q, rows[k], rows[i]) then ItemOf(q, rows[i]) in Evaluate(q, rows).value.historical
              else ItemOf(q, rows[i]) in Evaluate(q, rows).value.later
    {
      RowIsReported(q, rows, k, i);
    }
  }

  lemma RowIsReported(q: Query, rows: seq<RawRow>, k: nat, i: nat)
    requires AllWellFormed(q, rows) && AllFine(q, rows) && Chosen(q, rows, k) && i < |rows|
    requires rows[i].RawRow? && rows[i].name != Some(q.boundName) && EndOf(q, rows[k]).Some?
    ensures var report := Evaluate(q, rows).value;
      if Before(q, rows[k], rows[i]) then ItemOf(q, rows[i]) in report.historical
      else ItemOf(q, rows[i]) in report.later
  {
    hide Evaluate, WellFormed, Fine, Before, After, ItemOf, Divide, ValidBound, IsHistorical, IsLater, Read, EndOf,
      Project;
    var parsed := ParseAll(q, rows).value;
    ParseAllExactly(q, rows);
    RowsAreNamed(q, rows);
    PlacesExactly(q, rows[k], rows[i]);
    ReadExactly(q, rows[i]);
    assert parsed[i] == Read(q, rows[i]) && parsed[i].name != q.boundName;
    DivideExactly(q, parsed[k], parsed);
    SortedElements(q, parsed[k], parsed, ItemOf(q, rows[i]));
  }

  lemma ItemIsFrom(q: Query, rows: seq<RawRow>, k: nat, item: Item)
    requires AllWellFormed(q, rows) && AllFine(q, rows) && k < |rows| && Chosen(q, rows, k)
    requires EndOf(q, rows[k]).Some?
    ensures item in Evaluate(q, rows).value.historical ==> FromBefore(q, rows, k, item)
    ensures item in Evaluate(q, rows).value.later ==> FromAfter(q, rows, k, item)
  {
    hide Evaluate, WellFormed, Fine, Before, After, ItemOf, Divide, ValidBound, IsHistorical, IsLater, Read, EndOf,
      Project;
    var parsed := ParseAll(q, rows).value;
    var b := parsed[k];
    ParseAllExactly(q, rows);
    SortedElements(q, b, parsed, item);
    RowsAreNamed(q, rows);
    forall i | 0 <= i < |rows|
      ensures parsed[i] == Read(q, rows[i]) && rows[i].name == Some(parsed[i].name)
      ensures IsHistorical(b, parsed[i]) <==> Before(q, rows[k], rows[i])
      ensures IsLater(q, b, parsed[i]) <==> After(q, rows[k], rows[i])
      ensures Project(parsed[i]) == ItemOf(q, rows[i])
    {
      PlacesExactly(q, rows[k], rows[i]);
      ReadExactly(q, rows[i]);
    }
    if FromHistorical(q, b, parsed, item) {
      var i :| 0 <= i < |parsed| &&
        parsed[i].name != q.boundName && IsHistorical(b, parsed[i]) && Project(parsed[i]) == item;
      assert rows[i].name != Some(q.boundName) && Before(q, rows[k], rows[i]) && ItemOf(q, rows[i]) == item;
    }
    if FromLater(q, b, parsed, item) {
      var i :| 0 <= i < |parsed| &&
        parsed[i].name != q.boundName && IsLater(q, b, parsed[i]) && Project(parsed[i]) == item;
      assert rows[i].name != Some(q.boundName) && After(q, rows[k], rows[i]) && ItemOf(q, rows[i]) == item;
    }
  }

  // ---- Refusals ----

  /** The first row that cannot be taken: all before it are well formed and differ in name. */
  predicate FirstBad(q: Query, rows: seq<RawRow>, i: nat)
    requires i < |rows|
  {
    AllWellFormed(q, rows[..i]) && NamesDiffer(rows[..i]) &&
    !(AllWellFormed(q, rows[..i + 1]) && NamesDiffer(rows[..i + 1]))
  }

  /**
   A row of the bound name whose own shape is at fault, and not its status, is blamed on the bound execution;
   every other row that cannot be taken is blamed on the history.
   */
  predicate BoundAtFault(q: Query, rows: seq<RawRow>, i: nat)
    requires i < |rows|
  {
    var row := rows[i];
    row.RawRow? && row.name == Some(q.boundName) && (forall j | 0 <= j < i :: NameOf(rows[j]) != row.name) &&
    (row.name == Some("") || row.details.None? ||
     (row.details.value.status != Unofficial && (!row.details.value.start.Time? || !EndFits(row.details.value))))
  }

  lemma FirstBadDecides(q: Query, rows: seq<RawRow>, i: nat)
    requires QueryFine(q) && i < |rows| && FirstBad(q, rows, i)
    ensures Evaluate(q, rows) == Err(if BoundAtFault(q, rows, i) then BoundInvalid else HistoryInvalid)
  {
    hide AllFine, DistinctNames, AllWellFormed, NamesDiffer, BoundAtFault, Fine;
    AllExactly(q, rows[..i]);
    AllExactly(q, rows[..i + 1]);
    ParseAllExactly(q, rows[..i]);
    ParseAllExactly(q, rows[..i + 1]);
    FirstErrorStays(q, rows, i + 1);
    BadRowCode(q, rows, i);
  }

  lemma BadRowCode(q: Query, rows: seq<RawRow>, i: nat)
    requires i < |rows| && ParseAll(q, rows[..i]).Ok? && ParseAll(q, rows[..i + 1]).Err?
    ensures ParseAll(q, rows[..i + 1]) == Err(if BoundAtFault(q, rows, i) then BoundInvalid else HistoryInvalid)
  {
    hide Fine, Read;
    var before := ParseAll(q, rows[..i]).value;
    ParseAllExactly(q, rows[..i]);
    assert rows[..i + 1][..i] == rows[..i] && rows[..i + 1][i] == rows[i];
    NamesRead(q, rows[..i]);
    if rows[i].RawRow? && rows[i].name.Some? {
      assert Repeats(before, rows[i].name.value) <==> exists j | 0 <= j < i :: NameOf(rows[j]) == rows[i].name by {
        assert forall j | 0 <= j < i :: rows[..i][j] == rows[j];
      }
    }
  }

  lemma NamesRead(q: Query, rows: seq<RawRow>)
    requires ParseAll(q, rows).Ok?
    ensures |ParseAll(q, rows).value| == |rows|
    ensures forall j | 0 <= j < |rows| :: NameOf(rows[j]) == Some(ParseAll(q, rows).value[j].name)
  {
    hide ParseAll;
    NamesAreRead(q, rows);
  }

  lemma BoundIsNamed(q: Query, b: Parsed)
    requires ValidBound(q, b)
    ensures b.name == q.boundName
  {
  }

  /** When all rows can be taken: no bound execution, or rows without a place. */
  lemma RefusedThough(q: Query, rows: seq<RawRow>)
    requires QueryFine(q) && AllWellFormed(q, rows) && NamesDiffer(rows) && Evaluate(q, rows).Err?
    ensures Evaluate(q, rows) ==
      Err(if exists k | 0 <= k < |rows| :: IsBound(q, rows[k]) then HistoryInvalid else BoundInvalid)
  {
    hide WellFormed, Fine, IsBound, ValidBound, Divide, Read, EndOf;
    AllExactly(q, rows);
    ParseAllExactly(q, rows);
    NamesRead(q, rows);
    var parsed := ParseAll(q, rows).value;
    NamedIs(parsed, q.boundName);
    forall k | 0 <= k < |rows|
      ensures IsBound(q, rows[k]) <==> ValidBound(q, parsed[k])
    {
      PlacesExactly(q, rows[k], rows[k]);
    }
    if k :| 0 <= k < |rows| && IsBound(q, rows[k]) { BoundIsNamed(q, parsed[k]); }
    var bound := Named(parsed, q.boundName);
    if |bound| == 1 {
      var k :| 0 <= k < |parsed| && parsed[k].name == q.boundName;
      assert bound == [parsed[k]];
    }
  }

  lemma QueryRefused(q: Query, rows: seq<RawRow>)
    requires !QueryFine(q)
    ensures Evaluate(q, rows) == Err(HistoryInvalid)
  {
  }
}
