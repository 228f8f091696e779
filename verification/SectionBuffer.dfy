/**
 The section that a compaction writes: rows of older sections are added one by one, and every
 stream keeps exactly its cells.
 */
module SectionBuffers {
  import opened Prelude
  import opened Cells
  import opened Catalog
  import opened Lookups
  import Sequences

  const MAX_SECTION_ROWS: nat := 65_536

  // The memory that a section of so many rows, streams and facts takes to build, or None for an overflow.
  type Measure = (nat, nat, nat) -> Option<nat>

  datatype Limits = Limits(memory: nat, measure: Measure) {
    predicate Fits(rows: nat, streams: nat, facts: nat) {
      rows <= 65_536 && measure(rows, streams, facts).Some? && measure(rows, streams, facts).value <= memory
    }
  }

  datatype Buffered = Buffered(kind: ValueType, cells: seq<Option<Cell>>)

  type Stream = (nat, nat)

  function StreamOf(c: Column): Stream { (c.series, c.field) }

  function Nothing(n: nat): (cells: seq<Option<Cell>>)
    ensures |cells| == n
  {
    seq(n, _ => None)
  }

  lemma {:induction false} PickedNothing(timestamps: seq<I64>)
    ensures Picked(timestamps, Nothing(|timestamps|)) == []
    decreases |timestamps|
  {
    if timestamps != [] {
      var n := |timestamps| - 1;
      assert Nothing(|timestamps|)[..n] == Nothing(n);
      PickedNothing(timestamps[..n]);
    }
  }

  lemma PickedSnoc(timestamps: seq<I64>, cells: seq<Option<Cell>>, ts: I64, cell: Option<Cell>)
    requires |timestamps| == |cells|
    ensures Picked(timestamps + [ts], cells + [cell]) == Picked(timestamps, cells) + CellFact(ts, cell)
  {
    assert (timestamps + [ts])[..|cells|] == timestamps && (cells + [cell])[..|cells|] == cells;
  }

  function CellFact(ts: I64, cell: Option<Cell>): seq<Fact> { match cell case None => [] case Some(v) => [Fact(ts, v)] }

  /** A fact with the type of its column and the version of its section. */
  datatype Tagged = Tagged(fact: Fact, kind: ValueType, version: nat)

  function Tag(fs: seq<Fact>, kind: ValueType, version: nat): (tags: seq<Tagged>)
    ensures |tags| == |fs|
  {
    seq(|fs|, i requires 0 <= i < |fs| => Tagged(fs[i], kind, version))
  }

  lemma TagJoin(a: seq<Fact>, b: seq<Fact>, kind: ValueType, version: nat)
    ensures Tag(a + b, kind, version) == Tag(a, kind, version) + Tag(b, kind, version)
  {
  }

  // The facts of a section, tagged.
  function SectionTags(s: Section, k: Key): seq<Tagged>
    requires SectionOk(s)
  {
    ColumnOfSize(s.columns, |s.timestamps|, k.series, k.field);
    match ColumnOf(s.columns, k.series, k.field)
    case None => []
    case Some(c) => Tag(Picked(s.timestamps, c.cells), c.kind, s.version)
  }

  // The tagged facts of a key in the first rows of a section.
  function UpTo(s: Section, k: Key, r: nat): seq<Tagged>
    requires SectionOk(s) && r <= |s.timestamps|
  {
    ColumnOfSize(s.columns, |s.timestamps|, k.series, k.field);
    match ColumnOf(s.columns, k.series, k.field)
    case None => []
    case Some(c) => Tag(Picked(s.timestamps[..r], c.cells[..r]), c.kind, s.version)
  }

  // The type of a stream that has a column.
  function TypeOf(columns: seq<Column>, stream: Stream): ValueType {
    match ColumnOf(columns, stream.0, stream.1) case None => UIntType case Some(c) => c.kind
  }

  // What one row adds to a stream.
  function RowTags(columns: seq<Column>, rows: nat, stream: Stream, r: nat, ts: I64, version: nat): seq<Tagged>
    requires (forall i | 0 <= i < |columns| :: |columns[i].cells| == rows) && r < rows
  {
    Tag(CellFact(ts, CellAt(columns, rows, stream, r)), TypeOf(columns, stream), version)
  }

  // The cell of a stream in one row.
  function CellAt(columns: seq<Column>, rows: nat, stream: Stream, r: nat): Option<Cell>
    requires (forall i | 0 <= i < |columns| :: |columns[i].cells| == rows) && r < rows
  {
    ColumnOfSize(columns, rows, stream.0, stream.1);
    match ColumnOf(columns, stream.0, stream.1) case None => None case Some(c) => c.cells[r]
  }

  lemma UpToNext(s: Section, k: Key, r: nat)
    requires SectionOk(s) && r < |s.timestamps|
    ensures UpTo(s, k, r + 1) ==
            UpTo(s, k, r)
            + RowTags(s.columns, |s.timestamps|, (k.series, k.field), r, s.timestamps[r], s.version)
  {
    hide Picked, Tag, CellFact;
    ColumnOfSize(s.columns, |s.timestamps|, k.series, k.field);
    var c := ColumnOf(s.columns, k.series, k.field);
    if c.Some? {
      Sequences.Around(s.timestamps, r);
      Sequences.Around(c.value.cells, r);
      PickedSnoc(s.timestamps[..r], c.value.cells[..r], s.timestamps[r], c.value.cells[r]);
      TagJoin(Picked(s.timestamps[..r], c.value.cells[..r]), CellFact(s.timestamps[r], c.value.cells[r]), c.value.kind,
              s.version);
    } else {
      NoRowTags(s.columns, |s.timestamps|, (k.series, k.field), r, s.timestamps[r], s.version);
    }
  }

  lemma NoRowTags(columns: seq<Column>, rows: nat, stream: Stream, r: nat, ts: I64, version: nat)
    requires (forall i | 0 <= i < |columns| :: |columns[i].cells| == rows) && r < rows
    requires ColumnOf(columns, stream.0, stream.1).None?
    ensures RowTags(columns, rows, stream, r, ts, version) == []
  {
  }

  lemma UpToEnds(s: Section, k: Key)
    requires SectionOk(s)
    ensures UpTo(s, k, 0) == [] && UpTo(s, k, |s.timestamps|) == SectionTags(s, k)
  {
    ColumnOfSize(s.columns, |s.timestamps|, k.series, k.field);
    var c := ColumnOf(s.columns, k.series, k.field);
    Sequences.Neutral(s.timestamps);
    if c.Some? { Sequences.Neutral(c.value.cells); }
  }

  // ------------------------------------------------------------------ columns

  predicate Level(columns: map<Stream, Buffered>, rows: nat) { forall s | s in columns :: |columns[s].cells| == rows }

  // The tagged facts that buffered columns hold of a stream.
  function Held(timestamps: seq<I64>, columns: map<Stream, Buffered>, version: nat, s: Stream): seq<Tagged>
    requires Level(columns, |timestamps|)
  {
    if s in columns then Tag(Picked(timestamps, columns[s].cells), columns[s].kind, version) else []
  }

  // No column is without a fact.
  predicate Inhabited(timestamps: seq<I64>, columns: map<Stream, Buffered>)
    requires Level(columns, |timestamps|)
  {
    forall s | s in columns :: Picked(timestamps, columns[s].cells) != []
  }

  // Columns with an empty cell for one more row.
  function Padded(columns: map<Stream, Buffered>): map<Stream, Buffered> {
    map s | s in columns :: Buffered(columns[s].kind, columns[s].cells + [None])
  }

  // The columns once the first `c` cells of a row are in place.
  ghost predicate Placing(before: map<Stream, Buffered>, rows: nat, columns: seq<Column>, total: nat, r: nat, c: nat,
                          after: map<Stream, Buffered>)
    requires Level(before, rows) && c <= |columns| && (forall i | 0 <= i < |columns| :: |columns[i].cells| == total)
    requires r < total
  {
    forall s: Stream ::
      var cell := CellAt(columns[..c], total, s, r);
      && (s in after <==> s in before || cell.Some?)
      && (s in after ==> after[s].cells == (if s in before then before[s].cells else Nothing(rows)) + [cell])
      && (s in before ==> after[s].kind == before[s].kind)
      && (cell.Some? ==> after[s].kind == TypeOf(columns[..c], s))
  }

  lemma CellNext(columns: seq<Column>, total: nat, c: nat, r: nat, s: Stream)
    requires c < |columns| && (forall i | 0 <= i < |columns| :: |columns[i].cells| == total) && r < total
    ensures CellAt(columns[..c + 1], total, s, r) ==
            if StreamOf(columns[c]) == s then columns[c].cells[r] else CellAt(columns[..c], total, s, r)
    ensures TypeOf(columns[..c + 1], s) ==
            if StreamOf(columns[c]) == s then columns[c].kind else TypeOf(columns[..c], s)
  {
    ColumnNext(columns, c, s.0, s.1);
  }

  lemma CellFirst(columns: seq<Column>, total: nat, c: nat, r: nat)
    requires ColumnsOk(columns, total) && c < |columns| && r < total
    ensures CellAt(columns[..c], total, StreamOf(columns[c]), r) == None
  {
    ColumnAbsent(columns, c, total);
  }

  // How many cells of a row are there, and how many of them open a stream.
  function Present(columns: seq<Column>, total: nat, r: nat): nat
    requires (forall i | 0 <= i < |columns| :: |columns[i].cells| == total) && r < total
  {
    if columns == [] then 0
    else Present(columns[..|columns| - 1], total, r) + (if Last(columns).cells[r].Some? then 1 else 0)
  }

  function Opening(columns: seq<Column>, total: nat, r: nat, known: set<Stream>): nat
    requires (forall i | 0 <= i < |columns| :: |columns[i].cells| == total) && r < total
  {
    if columns == [] then 0 else
    Opening(columns[..|columns| - 1], total, r, known)
    + (if Last(columns).cells[r].Some? && StreamOf(Last(columns)) !in known then 1 else 0)
  }

  // The columns after one more cell of a row.
  function Placed(was: map<Stream, Buffered>, rows: nat, column: Column, r: nat): map<Stream, Buffered>
    requires Level(was, rows + 1) && r < |column.cells|
  {
    var stream := StreamOf(column);
    if stream in was then was[stream := Buffered(column.kind, was[stream].cells[..rows] + [column.cells[r]])]
    else if column.cells[r].Some? then was[stream := Buffered(column.kind, Nothing(rows) + [column.cells[r]])]
    else was
  }

  // The same, with how many streams were opened.
  ghost predicate PlacedSoFar(before: map<Stream, Buffered>, rows: nat, columns: seq<Column>, total: nat, r: nat,
                              c: nat, after: map<Stream, Buffered>)
    requires Level(before, rows) && ColumnsOk(columns, total) && r < total && c <= |columns|
  {
    Placing(before, rows, columns, total, r, c, after) && |after| == |before| + Opening(columns[..c], total, r,
                                                                                        before.Keys)
  }

  lemma PlacedNext(before: map<Stream, Buffered>, rows: nat, columns: seq<Column>, total: nat, r: nat, c: nat,
                   was: map<Stream, Buffered>)
    requires Level(before, rows) && ColumnsOk(columns, total) && r < total && c < |columns|
    requires PlacedSoFar(before, rows, columns, total, r, c, was)
    ensures Level(was, rows + 1) && |columns[c].cells| == total
    ensures (StreamOf(columns[c]) in was && was[StreamOf(columns[c])].kind != columns[c].kind)
            || PlacedSoFar(before, rows, columns, total, r, c + 1, Placed(was, rows, columns[c], r))
  {
    hide ColumnOf, CellAt, Placing, Placed, Opening;
    PlacingLevel(before, rows, columns, total, r, c, was);
    PlacedSize(was, rows, columns[c], r);
    OpeningNext(columns, total, c, r, before.Keys);
    if StreamOf(columns[c]) !in was || was[StreamOf(columns[c])].kind == columns[c].kind {
      PlacingNext(before, rows, columns, total, r, c, was);
    }
  }

  lemma PlacingLevel(before: map<Stream, Buffered>, rows: nat, columns: seq<Column>, total: nat, r: nat, c: nat,
                     was: map<Stream, Buffered>)
    requires Level(before, rows) && ColumnsOk(columns, total) && r < total && c < |columns|
    requires Placing(before, rows, columns, total, r, c, was)
    ensures Level(was, rows + 1)
    ensures StreamOf(columns[c]) in was <==> StreamOf(columns[c]) in before
  {
    hide ColumnOf, CellAt, TypeOf;
    CellFirst(columns, total, c, r);
    forall s ensures s in was ==> |was[s].cells| == rows + 1 { }
  }

  lemma PlacedSize(was: map<Stream, Buffered>, rows: nat, column: Column, r: nat)
    requires Level(was, rows + 1) && r < |column.cells|
    ensures |Placed(was, rows, column, r)| ==
            |was| + (if column.cells[r].Some? && StreamOf(column) !in was then 1 else 0)
  {
    assert Placed(was, rows, column, r).Keys == was.Keys + (if column.cells[r].Some? then {StreamOf(column)} else {});
  }

  lemma PlacingNext(before: map<Stream, Buffered>, rows: nat, columns: seq<Column>, total: nat, r: nat, c: nat,
                    was: map<Stream, Buffered>)
    requires Level(before, rows) && ColumnsOk(columns, total) && r < total && c < |columns|
    requires Placing(before, rows, columns, total, r, c, was) && Level(was, rows + 1)
    requires StreamOf(columns[c]) in was ==> was[StreamOf(columns[c])].kind == columns[c].kind
    ensures Placing(before, rows, columns, total, r, c + 1, Placed(was, rows, columns[c], r))
  {
    hide ColumnOf, CellAt, TypeOf;
    CellFirst(columns, total, c, r);
    var after := Placed(was, rows, columns[c], r);
    forall s: Stream
      ensures var cell := CellAt(columns[..c + 1], total, s, r);
        && (s in after <==> s in before || cell.Some?)
        && (s in after ==> after[s].cells == (if s in before then before[s].cells else Nothing(rows)) + [cell])
        && (s in before ==> after[s].kind == before[s].kind)
        && (cell.Some? ==> after[s].kind == TypeOf(columns[..c + 1], s))
    {
      CellNext(columns, total, c, r, s);
    }
  }

  /** Puts the cells of one row behind the buffered columns, opening a column for each new stream. */
  method PlaceRow(before: map<Stream, Buffered>, rows: nat, columns: seq<Column>, total: nat, r: nat)
    returns (result: Result<map<Stream, Buffered>>)
    requires Level(before, rows) && ColumnsOk(columns, total) && r < total
    ensures result.Ok? ==> Placing(before, rows, columns, total, r, |columns|, result.value)
    ensures result.Err? ==> Clashes(before, columns)
    ensures result.Ok? ==> |result.value| == |before| + Opening(columns, total, r, before.Keys)
  {
    hide PlacedSoFar, Placed, Padded, ColumnsOk, Level;
    var after := Padded(before);
    StartPlacing(before, rows, columns, total, r);
    for c := 0 to |columns|
      invariant PlacedSoFar(before, rows, columns, total, r, c, after)
    {
      PlacedNext(before, rows, columns, total, r, c, after);
      if StreamOf(columns[c]) in after && after[StreamOf(columns[c])].kind != columns[c].kind {
        PlacedClash(before, rows, columns, total, r, c, after);
        return Err(Corruption);
      }
      after := Placed(after, rows, columns[c], r);
    }
    EndPlacing(before, rows, columns, total, r, after);
    return Ok(after);
  }

  /** A stream is buffered under another type. */
  predicate Clashes(before: map<Stream, Buffered>, columns: seq<Column>) {
    exists c :: 0 <= c < |columns| && StreamOf(columns[c]) in before
                && before[StreamOf(columns[c])].kind != columns[c].kind
  }

  lemma PlacedClash(before: map<Stream, Buffered>, rows: nat, columns: seq<Column>, total: nat, r: nat, c: nat,
                    was: map<Stream, Buffered>)
    requires Level(before, rows) && ColumnsOk(columns, total) && r < total && c < |columns|
    requires PlacedSoFar(before, rows, columns, total, r, c, was)
    requires StreamOf(columns[c]) in was && was[StreamOf(columns[c])].kind != columns[c].kind
    ensures Clashes(before, columns)
  {
    hide ColumnOf, CellAt, TypeOf, Opening;
    PlacingLevel(before, rows, columns, total, r, c, was);
  }

  lemma StartPlacing(before: map<Stream, Buffered>, rows: nat, columns: seq<Column>, total: nat, r: nat)
    requires Level(before, rows) && ColumnsOk(columns, total) && r < total
    ensures PlacedSoFar(before, rows, columns, total, r, 0, Padded(before))
  {
    assert Padded(before).Keys == before.Keys;
    assert columns[..0] == [];
  }

  lemma EndPlacing(before: map<Stream, Buffered>, rows: nat, columns: seq<Column>, total: nat, r: nat,
                   after: map<Stream, Buffered>)
    requires Level(before, rows) && ColumnsOk(columns, total) && r < total
    requires PlacedSoFar(before, rows, columns, total, r, |columns|, after)
    ensures Placing(before, rows, columns, total, r, |columns|, after)
    ensures |after| == |before| + Opening(columns, total, r, before.Keys)
  {
    Sequences.Neutral(columns);
  }

  lemma OpeningNext(columns: seq<Column>, total: nat, c: nat, r: nat, known: set<Stream>)
    requires (forall i | 0 <= i < |columns| :: |columns[i].cells| == total) && r < total && c < |columns|
    ensures Opening(columns[..c + 1], total, r, known) ==
            Opening(columns[..c], total, r, known)
            + (if columns[c].cells[r].Some? && StreamOf(columns[c]) !in known then 1 else 0)
  {
    assert columns[..c + 1][..c] == columns[..c];
  }

  // What a placed row adds to every stream.
  lemma PlacedFacts(timestamps: seq<I64>, before: map<Stream, Buffered>, columns: seq<Column>, total: nat, r: nat,
                    ts: I64, version: nat, after: map<Stream, Buffered>)
    requires Level(before, |timestamps|) && ColumnsOk(columns, total) && r < total
    requires Placing(before, |timestamps|, columns, total, r, |columns|, after)
    ensures Level(after, |timestamps| + 1)
    ensures forall s: Stream ::
      Held(timestamps + [ts], after, version, s) ==
      Held(timestamps, before, version, s) + RowTags(columns, total, s, r, ts, version)
    ensures Inhabited(timestamps, before) ==> Inhabited(timestamps + [ts], after)
  {
    hide ColumnOf, CellAt, Picked, TypeOf, Tag, RowTags;
    Sequences.Neutral(columns);
    forall s | s in after ensures |after[s].cells| == |timestamps| + 1 { }
    forall s: Stream
      ensures Held(timestamps + [ts], after, version, s) ==
          Held(timestamps, before, version, s) + RowTags(columns, total, s, r, ts, version)
      ensures s in after && (s in before ==> Picked(timestamps, before[s].cells) != []) ==>
          Picked(timestamps + [ts], after[s].cells) != []
    {
      PlacedStream(timestamps, before, columns, total, r, ts, version, after, s);
    }
  }

  lemma PlacedStream(timestamps: seq<I64>, before: map<Stream, Buffered>, columns: seq<Column>, total: nat, r: nat,
                     ts: I64, version: nat, after: map<Stream, Buffered>, s: Stream)
    requires Level(before, |timestamps|) && Level(after, |timestamps| + 1) && ColumnsOk(columns, total) && r < total
    requires Placing(before, |timestamps|, columns, total, r, |columns|, after)
    ensures Held(timestamps + [ts], after, version, s) ==
            Held(timestamps, before, version, s) + RowTags(columns, total, s, r, ts, version)
    ensures s in after && (s in before ==> Picked(timestamps, before[s].cells) != []) ==>
      Picked(timestamps + [ts], after[s].cells) != []
  {
    hide ColumnOf, CellAt, Picked, TypeOf;
    Sequences.Neutral(columns);
    var cell := CellAt(columns, total, s, r);
    var was := if s in before then before[s].cells else Nothing(|timestamps|);
    PickedNothing(timestamps);
    PickedSnoc(timestamps, was, ts, cell);
    if s in after { TagJoin(Picked(timestamps, was), CellFact(ts, cell), after[s].kind, version); }
  }

  lemma RisingNext(timestamps: seq<I64>, ts: I64)
    requires Rising(timestamps) && (timestamps != [] ==> Last(timestamps) < ts)
    ensures Rising(timestamps + [ts])
  {
  }

  // Places a row below the others, which fills as many places as it has cells.
  method PlaceNext(timestamps: seq<I64>, before: map<Stream, Buffered>, columns: seq<Column>, total: nat, r: nat,
                   ghost ts: I64, ghost version: nat)
    returns (result: Result<map<Stream, Buffered>>)
    requires Level(before, |timestamps|) && ColumnsOk(columns, total) && r < total
    ensures result.Ok? ==> Level(result.value, |timestamps| + 1)
    ensures result.Err? ==> Clashes(before, columns)
    ensures result.Ok? ==> |result.value| == |before| + Opening(columns, total, r, before.Keys)
    ensures result.Ok? ==>
      |CellsOf(result.value, |timestamps| + 1)| == |CellsOf(before, |timestamps|)| + Present(columns, total, r)
    ensures result.Ok? && (timestamps == [] ==> before == map[]) ==>
      HeldStreams(result.value, |timestamps| + 1, 0) ==
      if timestamps == [] then RowStreams(columns, total, r) else HeldStreams(before, |timestamps|, 0)
    ensures result.Ok? ==> forall s: Stream ::
      Held(timestamps + [ts], result.value, version, s) ==
      Held(timestamps, before, version, s) + RowTags(columns, total, s, r, ts, version)
    ensures result.Ok? && Inhabited(timestamps, before) ==> Inhabited(timestamps + [ts], result.value)
  {
    hide CellsOf, Present, Held, CellAt, ColumnOf, Placing, Opening, CellFact, RowTags, Inhabited, Clashes,
         HeldStreams, RowStreams;
    var placed :- PlaceRow(before, |timestamps|, columns, total, r);
    PlacedFacts(timestamps, before, columns, total, r, ts, version, placed);
    PlacedCount(before, |timestamps|, columns, total, r, placed);
    if timestamps == [] ==> before == map[] { FirstStreams(before, |timestamps|, columns, total, r, placed); }
    return Ok(placed);
  }

  // The columns that are listed once all but those to do are.
  ghost predicate ListedCells(list: seq<Column>, columns: map<Stream, Buffered>, rows: nat, todo: set<Stream>) {
    && ColumnsOk(list, rows)
    && (forall i | 0 <= i < |list| ::
          && StreamOf(list[i]) in columns && StreamOf(list[i]) !in todo
          && list[i].cells == columns[StreamOf(list[i])].cells)
    && (forall s | s in columns && s !in todo :: exists i :: 0 <= i < |list| && StreamOf(list[i]) == s)
  }

  ghost predicate ListedFinds(list: seq<Column>, columns: map<Stream, Buffered>, todo: set<Stream>) {
    forall s: Stream ::
      ColumnOf(list, s.0, s.1) ==
      if s in columns && s !in todo then Some(Column(s.0, s.1, columns[s].kind, columns[s].cells)) else None
  }

  lemma CellsNext(was: seq<Column>, columns: map<Stream, Buffered>, rows: nat, todo: set<Stream>, s: Stream)
    requires Level(columns, rows) && ListedCells(was, columns, rows, todo) && s in todo && s in columns
    ensures ListedCells(was + [Column(s.0, s.1, columns[s].kind, columns[s].cells)], columns, rows, todo - {s})
  {
    var list := was + [Column(s.0, s.1, columns[s].kind, columns[s].cells)];
    assert StreamOf(list[|was|]) == s;
    assert forall i | 0 <= i < |was| :: list[i] == was[i];
    forall o | o in columns && o !in todo - {s} ensures exists i :: 0 <= i < |list| && StreamOf(list[i]) == o {
      if o != s {
        var i :| 0 <= i < |was| && StreamOf(was[i]) == o;
        assert StreamOf(list[i]) == o;
      }
    }
  }

  lemma FindsNext(was: seq<Column>, columns: map<Stream, Buffered>, todo: set<Stream>, s: Stream)
    requires ListedFinds(was, columns, todo) && s in todo && s in columns
    ensures ListedFinds(was + [Column(s.0, s.1, columns[s].kind, columns[s].cells)], columns, todo - {s})
  {
    var list := was + [Column(s.0, s.1, columns[s].kind, columns[s].cells)];
    assert list[..|list| - 1] == was;
  }

  /** The buffered columns as a list, one column for each stream. */
  method ColumnList(columns: map<Stream, Buffered>, rows: nat) returns (list: seq<Column>)
    requires Level(columns, rows)
    ensures |list| == |columns| && ListedCells(list, columns, rows, {}) && ListedFinds(list, columns, {})
  {
    hide ListedCells, ListedFinds;
    list := [];
    var todo := columns.Keys;
    NothingListed(columns, rows);
    while todo != {}
      invariant todo <= columns.Keys && |list| + |todo| == |columns|
      invariant ListedCells(list, columns, rows, todo) && ListedFinds(list, columns, todo)
      decreases |todo|
    {
      var s :| s in todo;
      CellsNext(list, columns, rows, todo, s);
      FindsNext(list, columns, todo, s);
      todo := todo - {s};
      list := list + [Column(s.0, s.1, columns[s].kind, columns[s].cells)];
    }
  }

  lemma NothingListed(columns: map<Stream, Buffered>, rows: nat)
    ensures ListedCells([], columns, rows, columns.Keys) && ListedFinds([], columns, columns.Keys)
    ensures |columns.Keys| == |columns|
  {
  }

  // ---------------------------------------------------------------- the limits

  // The places of the cells that are there.
  ghost function CellsOf(columns: map<Stream, Buffered>, rows: nat): set<(Stream, nat)>
    requires Level(columns, rows)
  {
    set s, r: nat | s in columns && r < rows && columns[s].cells[r].Some? :: (s, r)
  }

  ghost function CellsIn(columns: seq<Column>, rows: nat): set<(Stream, nat)>
    requires forall i | 0 <= i < |columns| :: |columns[i].cells| == rows
  {
    set i, r: nat | 0 <= i < |columns| && r < rows && columns[i].cells[r].Some? :: (StreamOf(columns[i]), r)
  }

  // The places that one row fills when it becomes row `rows`.
  ghost function RowCells(columns: seq<Column>, total: nat, r: nat, rows: nat): set<(Stream, nat)>
    requires (forall i | 0 <= i < |columns| :: |columns[i].cells| == total) && r < total
  {
    set i | 0 <= i < |columns| && columns[i].cells[r].Some? :: (StreamOf(columns[i]), rows)
  }

  lemma {:induction false} PresentCounts(columns: seq<Column>, total: nat, r: nat, rows: nat)
    requires ColumnsOk(columns, total) && r < total
    ensures |RowCells(columns, total, r, rows)| == Present(columns, total, r)
    decreases |columns|
  {
    hide RowCells;
    if columns == [] {
      NoRowCells(total, r, rows);
    } else {
      var n := |columns| - 1;
      PresentCounts(columns[..n], total, r, rows);
      RowCellsNext(columns, total, r, rows);
    }
  }

  lemma NoRowCells(total: nat, r: nat, rows: nat)
    requires r < total
    ensures RowCells([], total, r, rows) == {}
  {
  }

  lemma RowCellsNext(columns: seq<Column>, total: nat, r: nat, rows: nat)
    requires ColumnsOk(columns, total) && r < total && columns != []
    ensures var n := |columns| - 1; var place := (StreamOf(columns[n]), rows);
      && place !in RowCells(columns[..n], total, r, rows)
      && RowCells(columns, total, r, rows) ==
         RowCells(columns[..n], total, r, rows) + (if columns[n].cells[r].Some? then {place} else {})
  {
    var n := |columns| - 1;
    assert forall i | 0 <= i < n :: columns[..n][i] == columns[i];
  }

  lemma NoCell(total: nat, r: nat, s: Stream)
    requires r < total
    ensures CellAt([], total, s, r) == None
  {
  }

  lemma {:induction false} CellFound(columns: seq<Column>, total: nat, r: nat, s: Stream)
    requires ColumnsOk(columns, total) && r < total
    ensures CellAt(columns, total, s, r).Some? <==>
            exists i :: 0 <= i < |columns| && StreamOf(columns[i]) == s && columns[i].cells[r].Some?
    decreases |columns|
  {
    hide CellAt, ColumnOf, TypeOf;
    if columns == [] {
      NoCell(total, r, s);
    } else {
      var n := |columns| - 1;
      Sequences.Neutral(columns);
      CellNext(columns, total, n, r, s);
      CellFirst(columns, total, n, r);
      CellFound(columns[..n], total, r, s);
      assert forall i | 0 <= i < n :: columns[..n][i] == columns[i];
    }
  }

  lemma PlacedCells(before: map<Stream, Buffered>, rows: nat, columns: seq<Column>, total: nat, r: nat,
                    after: map<Stream, Buffered>)
    requires Level(before, rows) && Level(after, rows + 1) && ColumnsOk(columns, total) && r < total
    requires Placing(before, rows, columns, total, r, |columns|, after)
    ensures forall s | s in after :: after[s].cells[rows].Some? <==> (s, rows) in RowCells(columns, total, r, rows)
    ensures forall s | s in after ::
      forall x: nat | x < rows :: after[s].cells[x].Some? <==> s in before && before[s].cells[x].Some?
    ensures forall s: Stream | (s, rows) in RowCells(columns, total, r, rows) || s in before :: s in after
  {
    hide CellAt, ColumnOf, TypeOf;
    Sequences.Neutral(columns);
    forall s: Stream
      ensures (s, rows) in RowCells(columns, total, r, rows) <==> CellAt(columns[..|columns|], total, s, r).Some?
    {
      CellFound(columns, total, r, s);
    }
  }

  lemma PlacesJoin(before: map<Stream, Buffered>, rows: nat, after: map<Stream, Buffered>, row: set<(Stream, nat)>)
    requires Level(before, rows) && Level(after, rows + 1) && forall place | place in row :: place.1 == rows
    requires forall s | s in after :: after[s].cells[rows].Some? <==> (s, rows) in row
    requires forall s | s in after ::
      forall x: nat | x < rows :: after[s].cells[x].Some? <==> s in before && before[s].cells[x].Some?
    requires forall s: Stream | (s, rows) in row || s in before :: s in after
    ensures |CellsOf(after, rows + 1)| == |CellsOf(before, rows)| + |row|
  {
    assert CellsOf(after, rows + 1) == CellsOf(before, rows) + row;
    assert CellsOf(before, rows) !! row;
  }

  // A placed row fills as many more places as it has cells.
  lemma PlacedCount(before: map<Stream, Buffered>, rows: nat, columns: seq<Column>, total: nat, r: nat,
                    after: map<Stream, Buffered>)
    requires Level(before, rows) && Level(after, rows + 1) && ColumnsOk(columns, total) && r < total
    requires Placing(before, rows, columns, total, r, |columns|, after)
    ensures |CellsOf(after, rows + 1)| == |CellsOf(before, rows)| + Present(columns, total, r)
  {
    hide CellAt, ColumnOf, Present, Placing, CellsOf;
    PresentCounts(columns, total, r, rows);
    PlacedCells(before, rows, columns, total, r, after);
    PlacesJoin(before, rows, after, RowCells(columns, total, r, rows));
  }

  // The streams that have a cell in one row.
  ghost function RowStreams(columns: seq<Column>, total: nat, r: nat): set<Stream>
    requires (forall i | 0 <= i < |columns| :: |columns[i].cells| == total) && r < total
  {
    set i | 0 <= i < |columns| && columns[i].cells[r].Some? :: StreamOf(columns[i])
  }

  ghost function HeldStreams(columns: map<Stream, Buffered>, rows: nat, r: nat): set<Stream>
    requires Level(columns, rows) && r < rows
  {
    set s | s in columns && columns[s].cells[r].Some?
  }

  ghost function StreamsOf(columns: seq<Column>): set<Stream> {
    set i | 0 <= i < |columns| :: StreamOf(columns[i])
  }

  /** Whether a row with cells of these streams would still fit behind rows with these streams and so many facts. */
  ghost predicate Takes(limits: Limits, rows: nat, streams: set<Stream>, facts: nat, row: set<Stream>) {
    limits.Fits(rows + 1, |streams + row|, facts + |row|)
  }

  // The counts that admission takes are those of the streams.
  lemma {:induction false} CountRow(columns: seq<Column>, total: nat, r: nat, known: set<Stream>)
    requires ColumnsOk(columns, total) && r < total
    ensures Present(columns, total, r) == |RowStreams(columns, total, r)|
    ensures |known| + Opening(columns, total, r, known) == |known + RowStreams(columns, total, r)|
    decreases |columns|
  {
    hide RowStreams;
    if columns == [] {
      NoRowStreams(total, r);
      assert known + {} == known;
    } else {
      var n := |columns| - 1;
      CountRow(columns[..n], total, r, known);
      RowStreamsNext(columns, total, r);
      var front, s := RowStreams(columns[..n], total, r), StreamOf(columns[n]);
      if columns[n].cells[r].None? {
        assert front + {} == front;
      } else if s in known {
        assert known + (front + {s}) == known + front;
      } else {
        assert known + (front + {s}) == (known + front) + {s};
      }
    }
  }

  lemma NoRowStreams(total: nat, r: nat)
    requires r < total
    ensures RowStreams([], total, r) == {}
  {
  }

  lemma RowStreamsNext(columns: seq<Column>, total: nat, r: nat)
    requires ColumnsOk(columns, total) && r < total && columns != []
    ensures var n := |columns| - 1; var s := StreamOf(columns[n]);
      && s !in RowStreams(columns[..n], total, r)
      && RowStreams(columns, total, r) ==
         RowStreams(columns[..n], total, r) + (if columns[n].cells[r].Some? then {s} else {})
  {
    var n := |columns| - 1;
    assert forall i | 0 <= i < n :: columns[..n][i] == columns[i];
  }

  lemma NothingHeld(timestamps: seq<I64>, columns: map<Stream, Buffered>)
    requires Level(columns, |timestamps|) && Inhabited(timestamps, columns)
    ensures timestamps == [] ==> columns == map[]
  {
    assert Picked([], []) == [];
    assert timestamps == [] ==> forall s | s in columns :: columns[s].cells == [];
  }

  // The first row keeps its streams, whatever follows it.
  lemma FirstStreams(before: map<Stream, Buffered>, rows: nat, columns: seq<Column>, total: nat, r: nat,
                     after: map<Stream, Buffered>)
    requires Level(before, rows) && Level(after, rows + 1) && ColumnsOk(columns, total) && r < total
    requires Placing(before, rows, columns, total, r, |columns|, after) && (rows == 0 ==> before == map[])
    ensures HeldStreams(after, rows + 1, 0) ==
            if rows == 0 then RowStreams(columns, total, r) else HeldStreams(before, rows, 0)
  {
    hide CellAt, ColumnOf, TypeOf;
    Sequences.Neutral(columns);
    PlacedCells(before, rows, columns, total, r, after);
    forall s: Stream ensures s in RowStreams(columns, total, r) <==> (s, rows) in RowCells(columns, total, r, rows) { }
  }

  /** A section that the limits have room for: its rows, its streams and its facts. */
  ghost predicate Within(limits: Limits, s: Section)
    requires SectionOk(s)
  {
    limits.Fits(|s.timestamps|, |s.columns|, |CellsIn(s.columns, |s.timestamps|)|)
  }

  /** Every column of a section holds a fact. */
  predicate Used(s: Section)
    requires SectionOk(s)
  {
    forall i | 0 <= i < |s.columns| :: Picked(s.timestamps, s.columns[i].cells) != []
  }

  predicate Rising(timestamps: seq<I64>) { forall i, j | 0 <= i < j < |timestamps| :: timestamps[i] < timestamps[j] }

  lemma SectionRows(s: Section)
    requires SectionOk(s)
    ensures ColumnsOk(s.columns, |s.timestamps|)
  {
  }

  /** The section that is being written. */
  class SectionBuffer {
    const table: nat
    const version: nat
    const limits: Limits
    var timestamps: seq<I64>
    var columns: map<Stream, Buffered>
    var facts: nat

    ghost predicate Valid()
      reads this
    {
      && Level(columns, |timestamps|) && Rising(timestamps) && facts == |CellsOf(columns, |timestamps|)|
      && (timestamps != [] ==> limits.Fits(|timestamps|, |columns|, facts))
      && Inhabited(timestamps, columns)
    }

    // The facts that it holds of a key, with their type and version.
    ghost function TagsOf(k: Key): seq<Tagged>
      requires Valid()
      reads this
    {
      Held(timestamps, columns, version, (k.series, k.field))
    }

    constructor (table: nat, version: nat, limits: Limits)
      ensures Valid() && timestamps == [] && columns == map[]
      ensures this.table == table && this.version == version && this.limits == limits
    {
      this.table, this.version, this.limits := table, version, limits;
      timestamps, columns, facts := [], map[], 0;
      new;
      assert CellsOf(map[], 0) == {};
    }

    /** Whether the limits leave room for one more row; it predicts what the row will make of the buffer. */
    method CanAccept(row: seq<Column>, total: nat, r: nat) returns (result: Result<bool>)
      requires (forall i | 0 <= i < |row| :: |row[i].cells| == total) && r < total
      ensures result.Ok? ==>
        (result.value <==> limits.Fits(|timestamps| + 1, |columns| + Opening(row, total, r, columns.Keys),
                                       facts + Present(row, total, r)))
      ensures result.Err? ==>
        limits.measure(|timestamps| + 1, |columns| + Opening(row, total, r, columns.Keys),
                       facts + Present(row, total, r)).None?
    {
      var rows := |timestamps| + 1;
      if rows > MAX_SECTION_ROWS { return Ok(false); }
      var added, addedFacts := 0, 0;
      for c := 0 to |row|
        invariant added == Opening(row[..c], total, r, columns.Keys) && addedFacts == Present(row[..c], total, r)
      {
        assert row[..c + 1][..c] == row[..c];
        if row[c].cells[r].Some? {
          addedFacts := addedFacts + 1;
          if StreamOf(row[c]) !in columns { added := added + 1; }
        }
      }
      Sequences.Neutral(row);
      var bytes := limits.measure(rows, |columns| + added, facts + addedFacts);
      if bytes.None? { return Err(Limit); }
      return Ok(bytes.value <= limits.memory);
    }

    /**
     Adds one row of a section; every stream gains exactly its cell of that row, under its type.
     Only a row that is not newer, or a stream of another type, is refused.
     */
    method Push(s: Section, r: nat) returns (result: Result<()>)
      requires Valid() && SectionOk(s) && r < |s.timestamps|
      requires limits.Fits(|timestamps| + 1, |columns| + Opening(s.columns, |s.timestamps|, r, columns.Keys),
                           facts + Present(s.columns, |s.timestamps|, r))
      modifies this
      ensures result.Ok? ==> Valid() && timestamps == old(timestamps) + [s.timestamps[r]]
      ensures result.Err? ==>
        (old(timestamps) != [] && Last(old(timestamps)) >= s.timestamps[r]) || Clashes(old(columns), s.columns)
      ensures result.Ok? ==> forall k: Key ::
        TagsOf(k) ==
        old(TagsOf(k)) + RowTags(s.columns, |s.timestamps|, (k.series, k.field), r, s.timestamps[r], version)
      ensures result.Ok? ==>
        HeldStreams(columns, |timestamps|, 0) ==
        if old(timestamps) == [] then RowStreams(s.columns, |s.timestamps|, r)
        else old(HeldStreams(columns, |timestamps|, 0))
    {
      hide SectionOk, ColumnOf, CellAt, Placing, Opening, Present, CellsOf, CellFact, Held, Rising, Limits.Fits,
           RowTags, Inhabited, Clashes, HeldStreams, RowStreams;
      var ts := s.timestamps[r];
      NothingHeld(timestamps, columns);
      if timestamps != [] && Last(timestamps) >= ts { return Err(Corruption); }
      SectionRows(s);
      var added := PresentIn(s.columns, |s.timestamps|, r);
      var placed :- PlaceNext(timestamps, columns, s.columns, |s.timestamps|, r, ts, version);
      RisingNext(timestamps, ts);
      columns := placed;
      timestamps := timestamps + [ts];
      facts := facts + added;
      return Ok(());
    }

    /** The finished section: it holds exactly the buffered facts, and no column without one. */
    method Finish() returns (s: Section)
      requires Valid() && timestamps != []
      ensures SectionOk(s) && s.table == table && s.version == version && s.timestamps == timestamps
      ensures forall k: Key :: SectionTags(s, k) == TagsOf(k)
      ensures Within(limits, s) && Used(s)
      ensures StreamsOf(s.columns) == columns.Keys && |CellsIn(s.columns, |s.timestamps|)| == facts
      ensures RowStreams(s.columns, |s.timestamps|, 0) == HeldStreams(columns, |timestamps|, 0)
    {
      var list := ColumnList(columns, |timestamps|);
      s := Section(table, version, timestamps[0], Last(timestamps), timestamps, list);
      ListedSection(s, columns);
    }
  }

  // A section of the listed columns holds what they held.
  lemma ListedSection(s: Section, columns: map<Stream, Buffered>)
    requires s.timestamps != [] && s.timestamps[0] == s.minTs && Last(s.timestamps) == s.maxTs && Rising(s.timestamps)
    requires Level(columns, |s.timestamps|) && ListedCells(s.columns, columns, |s.timestamps|, {})
    requires ListedFinds(s.columns, columns, {})
    ensures SectionOk(s) && CellsIn(s.columns, |s.timestamps|) == CellsOf(columns, |s.timestamps|)
    ensures forall k: Key :: SectionTags(s, k) == Held(s.timestamps, columns, s.version, (k.series, k.field))
    ensures Inhabited(s.timestamps, columns) ==> Used(s)
    ensures StreamsOf(s.columns) == columns.Keys
    ensures RowStreams(s.columns, |s.timestamps|, 0) == HeldStreams(columns, |s.timestamps|, 0)
  {
    hide Picked, Tag;
    forall k: Key ensures SectionTags(s, k) == Held(s.timestamps, columns, s.version, (k.series, k.field)) {
      var stream: Stream := (k.series, k.field);
      assert ColumnOf(s.columns, stream.0, stream.1) ==
             if stream in columns then Some(Column(stream.0, stream.1, columns[stream].kind, columns[stream].cells))
             else None;
    }
  }

  method PresentIn(columns: seq<Column>, total: nat, r: nat) returns (n: nat)
    requires (forall i | 0 <= i < |columns| :: |columns[i].cells| == total) && r < total
    ensures n == Present(columns, total, r)
  {
    n := 0;
    for c := 0 to |columns|
      invariant n == Present(columns[..c], total, r)
    {
      assert columns[..c + 1][..c] == columns[..c];
      if columns[c].cells[r].Some? { n := n + 1; }
    }
    Sequences.Neutral(columns);
  }
}
