/**
 The execution history of one job (bizpulse/scripts/deployed_release_diagnostic_contract.py): one bound
 execution, the executions before it, and those after it.
 */
module History {
  import opened Wrappers
  import opened Ordering

  // ---- Data ----

  datatype Status = Running | Processing | Stopped | Degraded | FailedRun | Unknown | SucceededRun | Unofficial

  /** A time field: missing, a text that is no time with a zone, or a time in microseconds. */
  datatype TimeField = NoTime | BadTime | Time(us: int)

  /** One observed execution; `details` is None when its properties are not a mapping. */
  datatype Details = Details(status: Status, start: TimeField, end: TimeField)

  /** A row of the input: not a mapping, or one whose name may be missing. */
  datatype RawRow = NotMapping | RawRow(name: Option<string>, details: Option<Details>)

  datatype JobRole = PrepareJob | SeedJob | SessionMaintenance | StorageMaintenance | OtherJob

  datatype Code = HistoryInvalid | BoundInvalid

  /** The bound execution, the recorded and observed times in microseconds, and the timeout in seconds. */
  datatype Query = Query(
    role: JobRole, boundName: string, boundSucceeded: bool,
    recordedAt: int, observedAt: int, replicaTimeout: int)

  datatype Parsed = Parsed(name: string, status: Status, start: int, end: Option<int>)

  /** A row as reported, its times cut to whole seconds. */
  datatype Item = Item(name: string, status: Status, startSecond: int, endSecond: Option<int>)

  datatype Report = Report(bound: Item, historical: seq<Item>, later: seq<Item>)

  const SECOND := 1000000
  const ACTIVE_GRACE := 120

  // ---- One row ----

  predicate Active(s: Status) { s == Running || s == Processing }

  predicate Terminal(s: Status) { s == SucceededRun || s == FailedRun || s == Stopped || s == Degraded }

  predicate Scheduled(role: JobRole) { role == SessionMaintenance || role == StorageMaintenance }

  /** `_execution_row`. */
  function ParseRow(row: RawRow, boundName: string): (r: Result<Parsed, Code>)
    requires row.RawRow?
    ensures r.Ok? ==> row.name == Some(r.value.name)
  {
    var code := if row.name == Some(boundName) then BoundInvalid else HistoryInvalid;
    if row.name.None? || row.name.value == "" || row.details.None? then Err(code)
    else
      var d := row.details.value;
      if d.status == Unofficial then Err(HistoryInvalid)
      else if !d.start.Time? then Err(code)
      else if Active(d.status) && d.end == NoTime then Ok(Parsed(row.name.value, d.status, d.start.us, None))
      else if !d.end.Time? || d.end.us < d.start.us then Err(code)
      else Ok(Parsed(row.name.value, d.status, d.start.us, Some(d.end.us)))
  }

  predicate InPast(q: Query, p: Parsed) {
    p.start <= q.observedAt && (p.end.Some? ==> p.end.value <= q.observedAt)
  }

  function Project(p: Parsed): Item {
    Item(p.name, p.status, p.start / SECOND, if p.end.Some? then Some(p.end.value / SECOND) else None)
  }

  predicate ItemLe(a: Item, b: Item) {
    a.startSecond < b.startSecond || (a.startSecond == b.startSecond && TextLe(a.name, b.name))
  }

  predicate IsHistorical(b: Parsed, p: Parsed) {
    Terminal(p.status) && p.end.Some? && p.end.value <= b.start
  }

  predicate IsLater(q: Query, b: Parsed, p: Parsed)
    requires b.end.Some?
  {
    !IsHistorical(b, p) && Scheduled(q.role) && p.start >= b.end.value &&
    ((p.status == SucceededRun && p.end.Some?) ||
     (Active(p.status) && p.end.None? &&
      0 <= q.observedAt - p.start <= (q.replicaTimeout + ACTIVE_GRACE) * SECOND))
  }

  predicate ValidQuery(q: Query) {
    q.role != OtherJob && q.boundSucceeded && q.replicaTimeout > 0 && q.recordedAt <= q.observedAt
  }

  predicate ValidBound(q: Query, b: Parsed) {
    b.name == q.boundName && b.status == SucceededRun && b.end.Some? && b.end.value <= q.recordedAt
  }

  // ---- The evaluation ----

  /** Reading the rows in order; the first row that is malformed, repeated or in the future decides. */
  function ParseAll(q: Query, rows: seq<RawRow>): Result<seq<Parsed>, Code> {
    if rows == [] then Ok([])
    else
      var n := |rows| - 1;
      match ParseAll(q, rows[..n])
      case Err(e) => Err(e)
      case Ok(parsed) =>
        var row := rows[n];
        if row.NotMapping? || row.name.None? || Repeats(parsed, row.name.value) then Err(HistoryInvalid)
        else
          match ParseRow(row, q.boundName)
          case Err(e) => Err(e)
          case Ok(p) => if InPast(q, p) then Ok(parsed + [p]) else Err(HistoryInvalid)
  }

  predicate Repeats(parsed: seq<Parsed>, name: string) {
    exists i | 0 <= i < |parsed| :: parsed[i].name == name
  }

  function Named(parsed: seq<Parsed>, name: string): seq<Parsed> {
    if parsed == [] then []
    else Named(parsed[..|parsed| - 1], name) +
         if parsed[|parsed| - 1].name == name then [parsed[|parsed| - 1]] else []
  }

  datatype Split = Split(historical: seq<Item>, later: seq<Item>)

  /** Sorting the other rows into those before and those after the bound execution. */
  function Divide(q: Query, b: Parsed, parsed: seq<Parsed>): Option<Split>
    requires b.end.Some?
  {
    if parsed == [] then Some(Split([], []))
    else
      var n := |parsed| - 1;
      match Divide(q, b, parsed[..n])
      case None => None
      case Some(split) =>
        var p := parsed[n];
        if p.name == q.boundName then Some(split)
        else if IsHistorical(b, p) then Some(split.(historical := split.historical + [Project(p)]))
        else if IsLater(q, b, p) then Some(split.(later := split.later + [Project(p)]))
        else None
  }

  function Evaluate(q: Query, rows: seq<RawRow>): Result<Report, Code> {
    if !ValidQuery(q) then Err(HistoryInvalid)
    else
      match ParseAll(q, rows)
      case Err(e) => Err(e)
      case Ok(parsed) =>
        var bound := Named(parsed, q.boundName);
        if |bound| != 1 || !ValidBound(q, bound[0]) then Err(BoundInvalid)
        else
          match Divide(q, bound[0], parsed)
          case None => Err(HistoryInvalid)
          case Some(split) =>
            Ok(Report(Project(bound[0]), Sort(ItemLe, split.historical), Sort(ItemLe, split.later)))
  }

  // ---- The loops ----

  method ParseRows(q: Query, rows: seq<RawRow>) returns (r: Result<seq<Parsed>, Code>)
    ensures r == ParseAll(q, rows)
  {
    var names: set<string> := {};
    var parsed: seq<Parsed> := [];
    for i := 0 to |rows|
      invariant ParseAll(q, rows[..i]) == Ok(parsed)
      invariant forall name :: name in names <==> Repeats(parsed, name)
    {
      var row := rows[i];
      assert rows[..i + 1][..i] == rows[..i];
      if row.NotMapping? || row.name.None? || row.name.value in names {
        FirstErrorStays(q, rows, i + 1);
        return Err(HistoryInvalid);
      }
      names := names + {row.name.value};
      var one := ParseRow(row, q.boundName);
      if one.Err? || !InPast(q, one.value) {
        FirstErrorStays(q, rows, i + 1);
        return Err(if one.Err? then one.error else HistoryInvalid);
      }
      ghost var before := parsed;
      parsed := parsed + [one.value];
      assert forall name :: Repeats(parsed, name) <==> Repeats(before, name) || name == one.value.name by {
        assert parsed[|before|] == one.value;
        assert forall j | 0 <= j < |before| :: parsed[j] == before[j];
      }
    }
    assert rows[..|rows|] == rows;
    r := Ok(parsed);
  }

  lemma {:induction false} FirstErrorStays(q: Query, rows: seq<RawRow>, n: nat)
    requires n <= |rows| && ParseAll(q, rows[..n]).Err?
    ensures ParseAll(q, rows) == ParseAll(q, rows[..n])
    decreases |rows| - n
  {
    if n == |rows| {
      assert rows[..n] == rows;
    } else {
      assert rows[..n + 1][..n] == rows[..n];
      FirstErrorStays(q, rows, n + 1);
    }
  }

  method DivideRows(q: Query, b: Parsed, parsed: seq<Parsed>) returns (r: Option<Split>)
    requires b.end.Some?
    ensures r == Divide(q, b, parsed)
  {
    var historical: seq<Item> := [];
    var later: seq<Item> := [];
    for i := 0 to |parsed|
      invariant Divide(q, b, parsed[..i]) == Some(Split(historical, later))
    {
      var p := parsed[i];
      assert parsed[..i + 1][..i] == parsed[..i];
      if p.name == q.boundName { continue; }
      if IsHistorical(b, p) {
        historical := historical + [Project(p)];
        continue;
      }
      if !Scheduled(q.role) || p.start < b.end.value {
        FailureStays(q, b, parsed, i + 1);
        return None;
      }
      if p.status == SucceededRun && p.end.Some? {
        later := later + [Project(p)];
        continue;
      }
      if Active(p.status) && p.end.None? {
        var age := q.observedAt - p.start;
        if 0 <= age <= (q.replicaTimeout + ACTIVE_GRACE) * SECOND {
          later := later + [Project(p)];
          continue;
        }
      }
      FailureStays(q, b, parsed, i + 1);
      return None;
    }
    assert parsed[..|parsed|] == parsed;
    r := Some(Split(historical, later));
  }

  lemma {:induction false} FailureStays(q: Query, b: Parsed, parsed: seq<Parsed>, n: nat)
    requires b.end.Some? && n <= |parsed| && Divide(q, b, parsed[..n]).None?
    ensures Divide(q, b, parsed).None?
    decreases |parsed| - n
  {
    if n == |parsed| {
      assert parsed[..n] == parsed;
    } else {
      assert parsed[..n + 1][..n] == parsed[..n];
      FailureStays(q, b, parsed, n + 1);
    }
  }

  method EvaluateHistory(q: Query, rows: seq<RawRow>) returns (r: Result<Report, Code>)
    ensures r == Evaluate(q, rows)
  {
    if !ValidQuery(q) { return Err(HistoryInvalid); }
    var parsed := ParseRows(q, rows);
    if parsed.Err? { return Err(parsed.error); }
    var bound := Named(parsed.value, q.boundName);
    if |bound| != 1 || !ValidBound(q, bound[0]) { return Err(BoundInvalid); }
    var split := DivideRows(q, bound[0], parsed.value);
    if split.None? { return Err(HistoryInvalid); }
    r := Ok(Report(Project(bound[0]), Sort(ItemLe, split.value.historical), Sort(ItemLe, split.value.later)));
  }
}
