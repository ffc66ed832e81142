/** When a history is accepted, what its report contains, and that row order does not matter. */
module HistoryLaws {
  import opened Wrappers
  import opened Ordering
  import opened History

  // ---- Acceptance, without reference to any order ----

  /** A row that is well formed and lies in the past. */
  predicate Fine(q: Query, row: RawRow) {
    row.RawRow? && ParseRow(row, q.boundName).Ok? && InPast(q, ParseRow(row, q.boundName).value)
  }

  function Read(q: Query, row: RawRow): Parsed
    requires Fine(q, row)
  {
    ParseRow(row, q.boundName).value
  }

  function NameOf(row: RawRow): Option<string> {
    if row.RawRow? then row.name else None
  }

  predicate DistinctNames(rows: seq<RawRow>) {
    forall i, j | 0 <= i < j < |rows| :: NameOf(rows[i]) != NameOf(rows[j])
  }

  predicate AllFine(q: Query, rows: seq<RawRow>) {
    forall i | 0 <= i < |rows| :: Fine(q, rows[i])
  }

  /** The rule for a row other than the bound one. */
  predicate Placed(q: Query, b: Parsed, p: Parsed)
    requires b.end.Some?
  {
    IsHistorical(b, p) || IsLater(q, b, p)
  }

  /** `bound` is a valid bound execution, against which every other row has its place. */
  predicate Anchors(q: Query, rows: seq<RawRow>, bound: RawRow)
    requires AllFine(q, rows)
  {
    Fine(q, bound) && ValidBound(q, Read(q, bound)) &&
    forall i | 0 <= i < |rows| && rows[i].name != Some(q.boundName) ::
      Placed(q, Read(q, bound), Read(q, rows[i]))
  }

  predicate Acceptable(q: Query, rows: seq<RawRow>) {
    ValidQuery(q) && AllFine(q, rows) && DistinctNames(rows) &&
    exists i | 0 <= i < |rows| :: Anchors(q, rows, rows[i])
  }

  // ---- Reading ----

  lemma {:induction false} ParseAllExactly(q: Query, rows: seq<RawRow>)
    ensures ParseAll(q, rows).Ok? <==> AllFine(q, rows) && DistinctNames(rows)
    ensures ParseAll(q, rows).Ok? ==>
      |ParseAll(q, rows).value| == |rows| &&
      forall i | 0 <= i < |rows| :: ParseAll(q, rows).value[i] == Read(q, rows[i])
  {
    hide ParseRow, InPast;
    if rows != [] {
      var n := |rows| - 1;
      ParseAllExactly(q, rows[..n]);
      assert forall i | 0 <= i < n :: rows[i] == rows[..n][i];
      if ParseAll(q, rows[..n]).Ok? {
        var parsed := ParseAll(q, rows[..n]).value;
        assert forall i | 0 <= i < n :: Some(parsed[i].name) == NameOf(rows[i]);
        assert NameOf(rows[n]).Some? ==>
          (Repeats(parsed, NameOf(rows[n]).value) <==> exists i | 0 <= i < n :: NameOf(rows[i]) == NameOf(rows[n]));
      }
    }
  }

  predicate DistinctParsed(parsed: seq<Parsed>) {
    forall i, j | 0 <= i < j < |parsed| :: parsed[i].name != parsed[j].name
  }

  lemma {:induction false} NamedIs(parsed: seq<Parsed>, name: string)
    requires DistinctParsed(parsed)
    ensures Named(parsed, name) == [] <==> !Repeats(parsed, name)
    ensures |Named(parsed, name)| <= 1
    ensures forall i | 0 <= i < |parsed| && parsed[i].name == name :: Named(parsed, name) == [parsed[i]]
  {
    if parsed != [] {
      var n := |parsed| - 1;
      NamedIs(parsed[..n], name);
      assert forall i | 0 <= i < n :: parsed[i] == parsed[..n][i];
      assert Repeats(parsed, name) <==> Repeats(parsed[..n], name) || parsed[n].name == name;
    }
  }

  // ---- Dividing ----

  lemma {:induction false} DivideExactly(q: Query, b: Parsed, parsed: seq<Parsed>)
    requires b.end.Some?
    ensures Divide(q, b, parsed).Some? <==>
      forall i | 0 <= i < |parsed| && parsed[i].name != q.boundName :: Placed(q, b, parsed[i])
  {
    if parsed != [] {
      var n := |parsed| - 1;
      DivideExactly(q, b, parsed[..n]);
      assert forall i | 0 <= i < n :: parsed[i] == parsed[..n][i];
    }
  }

  /** An item of a row that is historical, respectively later. */
  predicate FromHistorical(q: Query, b: Parsed, parsed: seq<Parsed>, item: Item) {
    exists i | 0 <= i < |parsed| ::
      parsed[i].name != q.boundName && IsHistorical(b, parsed[i]) && Project(parsed[i]) == item
  }

  predicate FromLater(q: Query, b: Parsed, parsed: seq<Parsed>, item: Item)
    requires b.end.Some?
  {
    exists i | 0 <= i < |parsed| ::
      parsed[i].name != q.boundName && IsLater(q, b, parsed[i]) && Project(parsed[i]) == item
  }

  lemma {:induction false} DivideElements(q: Query, b: Parsed, parsed: seq<Parsed>, item: Item)
    requires b.end.Some? && Divide(q, b, parsed).Some?
    ensures item in Divide(q, b, parsed).value.historical <==> FromHistorical(q, b, parsed, item)
    ensures item in Divide(q, b, parsed).value.later <==> FromLater(q, b, parsed, item)
  {
    if parsed != [] {
      var n := |parsed| - 1;
      DivideElements(q, b, parsed[..n], item);
      assert forall i | 0 <= i < n :: parsed[i] == parsed[..n][i];
      var p := parsed[n];
      assert FromHistorical(q, b, parsed, item) <==>
        FromHistorical(q, b, parsed[..n], item) ||
        (p.name != q.boundName && IsHistorical(b, p) && Project(p) == item);
      assert FromLater(q, b, parsed, item) <==>
        FromLater(q, b, parsed[..n], item) ||
        (p.name != q.boundName && IsLater(q, b, p) && Project(p) == item);
    }
  }

  function Items(parsed: seq<Parsed>): seq<Item> {
    if parsed == [] then [] else Items(parsed[..|parsed| - 1]) + [Project(parsed[|parsed| - 1])]
  }

  /** Each row adds one item: to the bound rows, to the historical list, or to the later list. */
  lemma DivideStep(q: Query, b: Parsed, parsed: seq<Parsed>)
    requires b.end.Some? && parsed != [] && Divide(q, b, parsed).Some?
    ensures var n := |parsed| - 1;
      Divide(q, b, parsed[..n]).Some? &&
      var split, before := Divide(q, b, parsed).value, Divide(q, b, parsed[..n]).value;
      var named, item := Named(parsed[..n], q.boundName), Project(parsed[n]);
      (split == before && Items(Named(parsed, q.boundName)) == Items(named) + [item]) ||
      (Named(parsed, q.boundName) == named &&
       (split == before.(historical := before.historical + [item]) ||
        split == before.(later := before.later + [item])))
  {
    hide IsHistorical, IsLater, Items, Project;
    var n := |parsed| - 1;
    var named := Named(parsed[..n], q.boundName);
    NamedStep(parsed, q.boundName);
    if parsed[n].name == q.boundName {
      ItemsAppend(named, parsed[n]);
    }
  }

  lemma NamedStep(parsed: seq<Parsed>, name: string)
    requires parsed != []
    ensures var n := |parsed| - 1;
      Named(parsed, name) ==
      if parsed[n].name == name then Named(parsed[..n], name) + [parsed[n]] else Named(parsed[..n], name)
  {
  }

  lemma {:induction false} DivideCounts(q: Query, b: Parsed, parsed: seq<Parsed>, x: Item)
    requires b.end.Some? && Divide(q, b, parsed).Some?
    ensures var split := Divide(q, b, parsed).value;
      multiset(split.historical)[x] + multiset(split.later)[x] +
      multiset(Items(Named(parsed, q.boundName)))[x] == multiset(Items(parsed))[x]
  {
    if parsed != [] {
      hide Divide, Named;
      DivideStep(q, b, parsed);
      DivideCounts(q, b, parsed[..|parsed| - 1], x);
    }
  }

  lemma ItemsAppend(parsed: seq<Parsed>, p: Parsed)
    ensures Items(parsed + [p]) == Items(parsed) + [Project(p)]
  {
    assert (parsed + [p])[..|parsed|] == parsed;
  }

  /** Nothing is lost and nothing invented: both lists and the bound rows make up all items. */
  lemma {:induction false} DivideConserves(q: Query, b: Parsed, parsed: seq<Parsed>)
    requires b.end.Some? && Divide(q, b, parsed).Some?
    ensures var split := Divide(q, b, parsed).value;
      multiset(split.historical) + multiset(split.later) + multiset(Items(Named(parsed, q.boundName))) ==
      multiset(Items(parsed))
  {
    forall x { DivideCounts(q, b, parsed, x); }
  }

  // ---- Main results ----

  /** What is read bears the names of the rows. */
  lemma NamesAreRead(q: Query, rows: seq<RawRow>)
    requires ParseAll(q, rows).Ok?
    ensures AllFine(q, rows) && DistinctParsed(ParseAll(q, rows).value) && |ParseAll(q, rows).value| == |rows|
    ensures forall i | 0 <= i < |rows| :: NameOf(rows[i]) == Some(ParseAll(q, rows).value[i].name)
  {
    ParseAllExactly(q, rows);
  }

  lemma AcceptedIsAcceptable(q: Query, rows: seq<RawRow>)
    requires Evaluate(q, rows).Ok?
    ensures Acceptable(q, rows)
  {
    hide Placed, Divide, ParseAll;
    var k := AcceptedBound(q, rows);
    var parsed := ParseAll(q, rows).value;
    ParseAllExactly(q, rows);
    NamesAreRead(q, rows);
    BoundEnded(q, parsed[k]);
    DivideExactly(q, parsed[k], parsed);
    assert Anchors(q, rows, rows[k]);
  }

  lemma AcceptableIsAccepted(q: Query, rows: seq<RawRow>)
    requires Acceptable(q, rows)
    ensures Evaluate(q, rows).Ok?
  {
    hide Placed, Divide, ParseAll, ParseRow, InPast;
    ParseAllExactly(q, rows);
    NamesAreRead(q, rows);
    var parsed := ParseAll(q, rows).value;
    var k :| 0 <= k < |rows| && Anchors(q, rows, rows[k]);
    NamedIs(parsed, q.boundName);
    assert parsed[k].name == q.boundName && Named(parsed, q.boundName) == [parsed[k]];
    DivideExactly(q, parsed[k], parsed);
  }

  /**
   A history is accepted if and only if the query is valid, every row is well formed and in the past,
   names are unique, and one valid bound execution gives every other row its place.
   */
  lemma AcceptedExactly(q: Query, rows: seq<RawRow>)
    ensures Evaluate(q, rows).Ok? <==> Acceptable(q, rows)
  {
    hide Evaluate, Acceptable;
    if Evaluate(q, rows).Ok? { AcceptedIsAcceptable(q, rows); }
    if Acceptable(q, rows) { AcceptableIsAccepted(q, rows); }
  }

  /** How a report relates to the rows it was made from. */
  ghost predicate Describes(q: Query, rows: seq<RawRow>, report: Report) {
    ParseAll(q, rows).Ok? &&
    var parsed := ParseAll(q, rows).value;
    exists k | 0 <= k < |parsed| ::
      ValidBound(q, parsed[k]) && report.bound == Project(parsed[k]) &&
      multiset([report.bound]) + multiset(report.historical) + multiset(report.later) == multiset(Items(parsed)) &&
      (forall item | item in report.historical :: FromHistorical(q, parsed[k], parsed, item)) &&
      (forall item | item in report.later :: FromLater(q, parsed[k], parsed, item))
  }

  lemma ItemLeIsTotal()
    ensures TotalOrder(ItemLe)
  {
    forall a: Item, b: Item
      ensures ItemLe(a, b) || ItemLe(b, a)
    {
      TextTotal(a.name, b.name);
    }
    forall a: Item, b: Item, c: Item | ItemLe(a, b) && ItemLe(b, c)
      ensures ItemLe(a, c)
    {
      if TextLe(a.name, b.name) && TextLe(b.name, c.name) { TextTransitive(a.name, b.name, c.name); }
    }
  }

  /** The bound execution of an accepted history, and the report in terms of it. */
  lemma AcceptedBound(q: Query, rows: seq<RawRow>) returns (k: nat)
    requires Evaluate(q, rows).Ok?
    ensures ParseAll(q, rows).Ok? && k < |ParseAll(q, rows).value|
    ensures var parsed := ParseAll(q, rows).value; var b := parsed[k];
      ValidBound(q, b) && Named(parsed, q.boundName) == [b] && DistinctParsed(parsed) &&
      Divide(q, b, parsed).Some? &&
      Evaluate(q, rows).value == Report(Project(b), Sort(ItemLe, Divide(q, b, parsed).value.historical),
                                        Sort(ItemLe, Divide(q, b, parsed).value.later))
  {
    ParseAllExactly(q, rows);
    var parsed := ParseAll(q, rows).value;
    assert forall i | 0 <= i < |rows| :: parsed[i].name == NameOf(rows[i]).value;
    NamedIs(parsed, q.boundName);
    k :| 0 <= k < |parsed| && parsed[k].name == q.boundName;
  }

  lemma SortedElements(q: Query, b: Parsed, parsed: seq<Parsed>, item: Item)
    requires b.end.Some? && Divide(q, b, parsed).Some?
    ensures var split := Divide(q, b, parsed).value;
      (item in Sort(ItemLe, split.historical) <==> FromHistorical(q, b, parsed, item)) &&
      (item in Sort(ItemLe, split.later) <==> FromLater(q, b, parsed, item))
  {
    hide FromHistorical, FromLater;
    DivideElements(q, b, parsed, item);
    var split := Divide(q, b, parsed).value;
    assert item in Sort(ItemLe, split.historical) <==> item in multiset(split.historical);
    assert item in Sort(ItemLe, split.later) <==> item in multiset(split.later);
  }

  /**
   The report of an accepted history: bound, historical and later together are a permutation of all
   projected rows, and each list holds only rows of its kind: historical rows ended by the bound start,
   later ones began at or after its end.
   */
  lemma ReportIsPartition(q: Query, rows: seq<RawRow>)
    requires Evaluate(q, rows).Ok?
    ensures Describes(q, rows, Evaluate(q, rows).value)
  {
    hide FromHistorical, FromLater, Divide, ValidBound;
    var k := AcceptedBound(q, rows);
    var parsed, report := ParseAll(q, rows).value, Evaluate(q, rows).value;
    var b := parsed[k];
    assert b.end.Some? by { BoundEnded(q, b); }
    DivideConserves(q, b, parsed);
    assert [b][..0] == [] && Items([b]) == [Project(b)];
    forall item {
      SortedElements(q, b, parsed, item);
    }
  }

  lemma BoundEnded(q: Query, b: Parsed)
    requires ValidBound(q, b)
    ensures b.end.Some?
  {
  }

  /** Both lists come in order, and a job that is not scheduled has no later rows. */
  lemma ReportIsOrdered(q: Query, rows: seq<RawRow>)
    requires Evaluate(q, rows).Ok?
    ensures var report := Evaluate(q, rows).value;
      Sorted(ItemLe, report.historical) && Sorted(ItemLe, report.later) &&
      (!Scheduled(q.role) ==> report.later == [])
  {
    var k := AcceptedBound(q, rows);
    var parsed, report := ParseAll(q, rows).value, Evaluate(q, rows).value;
    var split := Divide(q, parsed[k], parsed).value;
    ItemLeIsTotal();
    SortSorted(ItemLe, split.historical);
    SortSorted(ItemLe, split.later);
    if !Scheduled(q.role) && report.later != [] {
      SortedElements(q, parsed[k], parsed, report.later[0]);
    }
  }

  // ---- Row order ----

  lemma {:induction false} DistinctCount(rows: seq<RawRow>, row: RawRow)
    requires DistinctNames(rows)
    ensures multiset(rows)[row] <= 1
  {
    if rows != [] {
      DistinctCount(rows[1..], row);
      assert rows == [rows[0]] + rows[1..];
      if rows[0] == row { assert row !in rows[1..]; }
    }
  }

  lemma TwiceCount(rows: seq<RawRow>, i: nat, j: nat)
    requires i < j < |rows| && rows[i] == rows[j]
    ensures multiset(rows)[rows[i]] >= 2
  {
    assert rows == rows[..j] + [rows[j]] + rows[j + 1..];
    assert rows[i] in rows[..j];
  }

  lemma PermutedDistinct(rows: seq<RawRow>, other: seq<RawRow>)
    requires DistinctNames(rows) && multiset(rows) == multiset(other)
    ensures DistinctNames(other)
  {
    forall i, j | 0 <= i < j < |other|
      ensures NameOf(other[i]) != NameOf(other[j])
    {
      assert other[i] in multiset(rows) && other[j] in multiset(rows);
      var i' :| 0 <= i' < |rows| && rows[i'] == other[i];
      var j' :| 0 <= j' < |rows| && rows[j'] == other[j];
      if i' == j' {
        TwiceCount(other, i, j);
        DistinctCount(rows, other[i]);
      }
    }
  }

  lemma PermutedElements(rows: seq<RawRow>, other: seq<RawRow>)
    requires multiset(rows) == multiset(other)
    ensures |rows| == |other| && forall row :: row in rows <==> row in other
  {
    assert |rows| == |multiset(rows)| && |other| == |multiset(other)|;
    forall row
      ensures row in rows <==> row in other
    {
      assert row in rows <==> row in multiset(rows);
    }
  }

  lemma PermutedAcceptable(q: Query, rows: seq<RawRow>, other: seq<RawRow>)
    requires Acceptable(q, rows) && multiset(rows) == multiset(other)
    ensures Acceptable(q, other)
  {
    PermutedElements(rows, other);
    PermutedDistinct(rows, other);
    assert AllFine(q, other) by { assert forall i | 0 <= i < |other| :: other[i] in rows; }
    var k :| 0 <= k < |rows| && Anchors(q, rows, rows[k]);
    assert rows[k] in other;
    var i :| 0 <= i < |other| && other[i] == rows[k];
    assert forall j | 0 <= j < |other| :: other[j] in rows;
  }

  // ---- The report of a permuted history ----

  predicate Within(parsed: seq<Parsed>, other: seq<Parsed>) {
    forall i | 0 <= i < |parsed| :: parsed[i] in other
  }

  lemma PermutedParsed(q: Query, rows: seq<RawRow>, other: seq<RawRow>)
    requires ParseAll(q, rows).Ok? && ParseAll(q, other).Ok? && multiset(rows) == multiset(other)
    ensures Within(ParseAll(q, rows).value, ParseAll(q, other).value)
  {
    ParseAllExactly(q, rows);
    ParseAllExactly(q, other);
    PermutedElements(rows, other);
    var a, b := ParseAll(q, rows).value, ParseAll(q, other).value;
    forall i | 0 <= i < |a|
      ensures a[i] in b
    {
      assert rows[i] in other;
      var j :| 0 <= j < |other| && other[j] == rows[i];
      assert b[j] == a[i];
    }
  }

  lemma FromTransfers(q: Query, b: Parsed, parsed: seq<Parsed>, other: seq<Parsed>, item: Item)
    requires b.end.Some? && Within(parsed, other)
    ensures FromHistorical(q, b, parsed, item) ==> FromHistorical(q, b, other, item)
    ensures FromLater(q, b, parsed, item) ==> FromLater(q, b, other, item)
  {
    hide IsHistorical, IsLater;
    if FromHistorical(q, b, parsed, item) {
      var i :| 0 <= i < |parsed| &&
        parsed[i].name != q.boundName && IsHistorical(b, parsed[i]) && Project(parsed[i]) == item;
      var j :| 0 <= j < |other| && other[j] == parsed[i];
    }
    if FromLater(q, b, parsed, item) {
      var i :| 0 <= i < |parsed| &&
        parsed[i].name != q.boundName && IsLater(q, b, parsed[i]) && Project(parsed[i]) == item;
      var j :| 0 <= j < |other| && other[j] == parsed[i];
    }
  }

  lemma {:induction false} ItemsOnce(parsed: seq<Parsed>, x: Item)
    requires DistinctParsed(parsed)
    ensures multiset(Items(parsed))[x] <= 1
    ensures x in Items(parsed) ==> exists i | 0 <= i < |parsed| :: parsed[i].name == x.name
  {
    if parsed != [] {
      var n := |parsed| - 1;
      ItemsOnce(parsed[..n], x);
      assert forall i | 0 <= i < n :: parsed[i] == parsed[..n][i];
    }
  }

  /** Two sorted lists of items, free of repeated names, that hold the same items are the same list. */
  lemma SameItemsSameList(a: seq<Item>, b: seq<Item>)
    requires Sorted(ItemLe, a) && Sorted(ItemLe, b)
    requires forall x :: x in a <==> x in b
    requires forall x :: multiset(a)[x] <= 1 && multiset(b)[x] <= 1
    requires forall x, y | x in a && y in a && x.name == y.name :: x == y
    ensures a == b
  {
    ItemLeIsTotal();
    forall x
      ensures multiset(a)[x] == multiset(b)[x]
    {
      assert x in a <==> x in multiset(a);
      assert x in b <==> x in multiset(b);
    }
    assert multiset(a) == multiset(b);
    forall x, y | x in a && y in a && ItemLe(x, y) && ItemLe(y, x)
      ensures x == y
    {
      TextTotal(x.name, y.name);
    }
    SortedUnique(ItemLe, a, b);
  }

  lemma FromIsUnique(q: Query, b: Parsed, parsed: seq<Parsed>, x: Item, y: Item)
    requires b.end.Some? && DistinctParsed(parsed) && x.name == y.name
    requires (FromHistorical(q, b, parsed, x) || FromLater(q, b, parsed, x)) &&
             (FromHistorical(q, b, parsed, y) || FromLater(q, b, parsed, y))
    ensures x == y
  {
    var i :| 0 <= i < |parsed| && Project(parsed[i]) == x;
    var j :| 0 <= j < |parsed| && Project(parsed[j]) == y;
    assert Project(parsed[i]).name == parsed[i].name && Project(parsed[j]).name == parsed[j].name;
    assert i == j;
  }

  lemma ListOnce(q: Query, b: Parsed, parsed: seq<Parsed>, x: Item)
    requires b.end.Some? && Divide(q, b, parsed).Some? && DistinctParsed(parsed)
    ensures multiset(Sort(ItemLe, Divide(q, b, parsed).value.historical))[x] <= 1
    ensures multiset(Sort(ItemLe, Divide(q, b, parsed).value.later))[x] <= 1
  {
    DivideCounts(q, b, parsed, x);
    ItemsOnce(parsed, x);
  }

  /** The lists made from two readings with the same rows are the same. */
  lemma SameRowsSameLists(q: Query, b: Parsed, parsed: seq<Parsed>, other: seq<Parsed>)
    requires b.end.Some? && Divide(q, b, parsed).Some? && Divide(q, b, other).Some?
    requires DistinctParsed(parsed) && DistinctParsed(other) && Within(parsed, other) && Within(other, parsed)
    ensures var s, t := Divide(q, b, parsed).value, Divide(q, b, other).value;
      Sort(ItemLe, s.historical) == Sort(ItemLe, t.historical) && Sort(ItemLe, s.later) == Sort(ItemLe, t.later)
  {
    hide Divide, FromHistorical, FromLater, Within;
    var s, t := Divide(q, b, parsed).value, Divide(q, b, other).value;
    ItemLeIsTotal();
    SortSorted(ItemLe, s.historical);
    SortSorted(ItemLe, t.historical);
    SortSorted(ItemLe, s.later);
    SortSorted(ItemLe, t.later);
    var h, h', f, f' := Sort(ItemLe, s.historical), Sort(ItemLe, t.historical), Sort(ItemLe, s.later),
      Sort(ItemLe, t.later);
    forall x: Item
      ensures (x in h <==> x in h') && (x in f <==> x in f')
      ensures multiset(h)[x] <= 1 && multiset(h')[x] <= 1 && multiset(f)[x] <= 1 && multiset(f')[x] <= 1
    {
      SortedElements(q, b, parsed, x);
      SortedElements(q, b, other, x);
      FromTransfers(q, b, parsed, other, x);
      FromTransfers(q, b, other, parsed, x);
      ListOnce(q, b, parsed, x);
      ListOnce(q, b, other, x);
    }
    forall x: Item, y: Item | x.name == y.name && ((x in h && y in h) || (x in f && y in f))
      ensures x == y
    {
      SortedElements(q, b, parsed, x);
      SortedElements(q, b, parsed, y);
      FromIsUnique(q, b, parsed, x, y);
    }
    SameItemsSameList(h, h');
    SameItemsSameList(f, f');
  }

  /** The order of the rows never matters to an accepted history: same acceptance, same report. */
  lemma RowOrderIsIrrelevant(q: Query, rows: seq<RawRow>, other: seq<RawRow>)
    requires Evaluate(q, rows).Ok? && multiset(rows) == multiset(other)
    ensures Evaluate(q, other) == Evaluate(q, rows)
  {
    hide Divide, Acceptable;
    AcceptedExactly(q, rows);
    PermutedAcceptable(q, rows, other);
    AcceptedExactly(q, other);
    var k := AcceptedBound(q, rows);
    var k' := AcceptedBound(q, other);
    PermutedParsed(q, rows, other);
    PermutedParsed(q, other, rows);
    var parsed, parsed' := ParseAll(q, rows).value, ParseAll(q, other).value;
    var i :| 0 <= i < |parsed| && parsed[i] == parsed'[k'];
    assert i == k;
    SameRowsSameLists(q, parsed[k], parsed, parsed');
  }
}
