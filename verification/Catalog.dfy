/**
 What queries read: units of sections in routing order, the rows still in the tail, and
 the schema of each table.

 The meaning of a catalog is, for every key, one list of facts. Everything that answers
 queries is proved against `Predecessor` and `InRange` of that list.
 */
module Catalog {
  import opened Prelude
  import opened Cells
  import Sequences

  datatype Key = Key(table: nat, series: nat, field: nat)
  datatype Fact = Fact(ts: I64, value: Cell)

  datatype Column = Column(series: nat, field: nat, kind: ValueType, cells: seq<Option<Cell>>)
  datatype Section = Section(table: nat, version: nat, minTs: I64, maxTs: I64, timestamps: seq<I64>,
                             columns: seq<Column>)
  datatype Unit = Unit(id: nat, minTs: I64, maxTs: I64, sections: seq<Section>)

  // A lasting fact is valid for ever, any other for this many seconds.
  datatype Validity = Forever | Seconds(count: nat)
  datatype Version = Version(no: nat, effective: Option<I64>, fields: map<nat, ValueType>, validity: Validity)

  datatype Table = Table(
    versions: seq<Version>, tails: map<(nat, nat), seq<Fact>>, firstRow: Option<I64>, lastTs: Option<I64>,
    retiredSeries: map<nat, I64>, retiredFields: map<nat, I64>)

  function Last<T>(s: seq<T>): T requires s != [] { s[|s| - 1] }

  // ------------------------------------------------------------------- facts

  predicate Ascending(fs: seq<Fact>) { forall i, j | 0 <= i < j < |fs| :: fs[i].ts < fs[j].ts }

  // The facts of one column.
  function Picked(timestamps: seq<I64>, cells: seq<Option<Cell>>): seq<Fact>
    requires |timestamps| == |cells|
  {
    if cells == [] then [] else
    var n := |cells| - 1;
    Picked(timestamps[..n], cells[..n]) + (match cells[n] case None => [] case Some(v) => [Fact(timestamps[n], v)])
  }

  function ColumnOf(columns: seq<Column>, series: nat, field: nat): Option<Column> {
    if columns == [] then None else
    var c := Last(columns);
    if c.series == series && c.field == field then Some(c) else ColumnOf(columns[..|columns| - 1], series, field)
  }

  predicate ColumnsOk(columns: seq<Column>, rows: nat) {
    && (forall i | 0 <= i < |columns| :: |columns[i].cells| == rows)
    && (forall i, j | 0 <= i < j < |columns| ::
          (columns[i].series, columns[i].field) != (columns[j].series, columns[j].field))
  }

  /** A decoded section: its rows ascend between its ends, and no stream has two columns. */
  predicate SectionOk(s: Section) {
    && s.timestamps != [] && s.timestamps[0] == s.minTs && Last(s.timestamps) == s.maxTs
    && (forall i, j | 0 <= i < j < |s.timestamps| :: s.timestamps[i] < s.timestamps[j])
    && ColumnsOk(s.columns, |s.timestamps|)
  }

  lemma {:induction false} ColumnOfSize(columns: seq<Column>, rows: nat, series: nat, field: nat)
    requires forall i | 0 <= i < |columns| :: |columns[i].cells| == rows
    ensures ColumnOf(columns, series, field).Some? ==> |ColumnOf(columns, series, field).value.cells| == rows
    decreases |columns|
  {
    if columns != [] { ColumnOfSize(columns[..|columns| - 1], rows, series, field); }
  }

  function SectionFacts(s: Section, k: Key): seq<Fact>
    requires SectionOk(s)
  {
    ColumnOfSize(s.columns, |s.timestamps|, k.series, k.field);
    match ColumnOf(s.columns, k.series, k.field)
    case None => []
    case Some(c) => Picked(s.timestamps, c.cells)
  }

  // The sections of one table, in order.
  function TableSections(sections: seq<Section>, table: nat): seq<Section> {
    if sections == [] then [] else
    TableSections(sections[..|sections| - 1], table) + (if Last(sections).table == table then [Last(sections)] else [])
  }

  function SectionsOf(units: seq<Unit>, table: nat): seq<Section> {
    if units == [] then [] else SectionsOf(units[..|units| - 1], table) + TableSections(Last(units).sections, table)
  }

  predicate SectionsOk(ss: seq<Section>) { forall i | 0 <= i < |ss| :: SectionOk(ss[i]) }

  function SealedFacts(ss: seq<Section>, k: Key): seq<Fact>
    requires SectionsOk(ss)
  {
    if ss == [] then [] else SealedFacts(ss[..|ss| - 1], k) + SectionFacts(Last(ss), k)
  }

  /** A unit holds well-formed sections within its own range. */
  predicate UnitOk(u: Unit) {
    forall i | 0 <= i < |u.sections| ::
      SectionOk(u.sections[i]) && u.minTs <= u.sections[i].minTs && u.sections[i].maxTs <= u.maxTs
  }

  predicate UnitsOk(units: seq<Unit>) { forall i | 0 <= i < |units| :: UnitOk(units[i]) }

  function TailOf(t: Table, k: Key): seq<Fact> {
    if (k.series, k.field) in t.tails then t.tails[(k.series, k.field)] else []
  }

  predicate TableOk(t: Table) {
    forall s | s in t.tails ::
      && Ascending(t.tails[s])
      && forall f | f in t.tails[s] :: t.firstRow.Some? && t.firstRow.value <= f.ts
  }

  /** All facts of a key, oldest first. */
  function AllFacts(units: seq<Unit>, t: Table, k: Key): seq<Fact>
    requires UnitsOk(units)
  {
    SectionsOfOk(units, k.table);
    SealedFacts(SectionsOf(units, k.table), k) + TailOf(t, k)
  }

  lemma {:induction false} TableSectionsOk(sections: seq<Section>, table: nat)
    ensures forall s | s in TableSections(sections, table) :: s in sections && s.table == table
    ensures forall s | s in sections && s.table == table :: s in TableSections(sections, table)
    decreases |sections|
  {
    if sections != [] {
      TableSectionsOk(sections[..|sections| - 1], table);
      Sequences.Snoc(sections);
    }
  }

  lemma {:induction false} SectionsOfOk(units: seq<Unit>, table: nat)
    requires UnitsOk(units)
    ensures SectionsOk(SectionsOf(units, table)) && forall s | s in SectionsOf(units, table) :: s.table == table
    decreases |units|
  {
    if units != [] {
      SectionsOfOk(units[..|units| - 1], table);
      TableSectionsOk(Last(units).sections, table);
      hide SectionOk;
      var ss := SectionsOf(units, table);
      forall i | 0 <= i < |ss| ensures SectionOk(ss[i]) && ss[i].table == table { assert ss[i] in ss; }
    }
  }

  // ------------------------------------------------------------------- order

  /** The sections of a table follow each other, and the tail follows them. */
  predicate Chain(ss: seq<Section>) { forall i, j | 0 <= i < j < |ss| :: ss[i].maxTs < ss[j].minTs }

  predicate OrderedTable(units: seq<Unit>, table: nat, t: Table) {
    var ss := SectionsOf(units, table);
    Chain(ss) && (ss != [] && t.firstRow.Some? ==> Last(ss).maxTs < t.firstRow.value)
  }

  lemma {:induction false} PickedWithin(timestamps: seq<I64>, cells: seq<Option<Cell>>)
    requires |timestamps| == |cells| && forall i, j | 0 <= i < j < |timestamps| :: timestamps[i] < timestamps[j]
    ensures Ascending(Picked(timestamps, cells))
    ensures forall f | f in Picked(timestamps, cells) :: timestamps != [] && timestamps[0] <= f.ts <= Last(timestamps)
    decreases |cells|
  {
    if cells != [] {
      var n := |cells| - 1;
      PickedWithin(timestamps[..n], cells[..n]);
      var a := Picked(timestamps[..n], cells[..n]);
      forall i | 0 <= i < |a| ensures a[i].ts < timestamps[n] { assert a[i] in a; }
    }
  }

  lemma SectionWithin(s: Section, k: Key)
    requires SectionOk(s)
    ensures Ascending(SectionFacts(s, k)) && forall f | f in SectionFacts(s, k) :: s.minTs <= f.ts <= s.maxTs
  {
    ColumnOfSize(s.columns, |s.timestamps|, k.series, k.field);
    var c := ColumnOf(s.columns, k.series, k.field);
    if c.Some? { PickedWithin(s.timestamps, c.value.cells); }
  }

  lemma AscendingConcat(a: seq<Fact>, b: seq<Fact>)
    requires Ascending(a) && Ascending(b) && forall f, g | f in a && g in b :: f.ts < g.ts
    ensures Ascending(a + b)
  {
    var c := a + b;
    forall i, j | 0 <= i < j < |c| ensures c[i].ts < c[j].ts {
      if j < |a| { assert c[i] == a[i] && c[j] == a[j]; }
      else if i < |a| { assert c[i] in a && c[j] in b; }
      else { assert c[i] == b[i - |a|] && c[j] == b[j - |a|]; }
    }
  }

  /** On an ordered table, the facts of every key ascend through the sections. */
  lemma {:induction false} SealedAscending(ss: seq<Section>, k: Key)
    requires SectionsOk(ss) && Chain(ss)
    ensures Ascending(SealedFacts(ss, k))
    ensures forall f | f in SealedFacts(ss, k) :: ss != [] && f.ts <= Last(ss).maxTs
    decreases |ss|
  {
    if ss != [] {
      hide SectionOk, SectionFacts;
      var n := |ss| - 1;
      SealedAscending(ss[..n], k);
      SectionWithin(ss[n], k);
      SectionOrder(ss[n]);
      AscendingConcat(SealedFacts(ss[..n], k), SectionFacts(ss[n], k));
    }
  }

  lemma SectionOrder(s: Section)
    requires SectionOk(s)
    ensures s.minTs <= s.maxTs
  {
  }

  /** On an ordered table, all facts of a key ascend, the tail included. */
  lemma FactsAscend(units: seq<Unit>, t: Table, k: Key)
    requires UnitsOk(units) && TableOk(t) && OrderedTable(units, k.table, t)
    ensures Ascending(AllFacts(units, t, k))
  {
    SectionsOfOk(units, k.table);
    SealedAscending(SectionsOf(units, k.table), k);
    hide UnitsOk, SealedFacts, SectionsOk;
    AscendingConcat(SealedFacts(SectionsOf(units, k.table), k), TailOf(t, k));
  }

  // ------------------------------------------------------------ the questions

  /** The last fact of a list at or before a time. */
  function Predecessor(fs: seq<Fact>, at: int): Option<Fact> {
    if fs == [] then None else if Last(fs).ts <= at then Some(Last(fs)) else Predecessor(fs[..|fs| - 1], at)
  }

  function InRange(fs: seq<Fact>, start: int, end: int): seq<Fact> {
    if fs == [] then [] else
    InRange(fs[..|fs| - 1], start, end) + (if start <= Last(fs).ts < end then [Last(fs)] else [])
  }

  lemma {:induction false} PredecessorConcat(a: seq<Fact>, b: seq<Fact>, at: int)
    ensures Predecessor(a + b, at) == if Predecessor(b, at).Some? then Predecessor(b, at) else Predecessor(a, at)
    decreases |b|
  {
    if b == [] {
      Sequences.Neutral(a);
    } else {
      var n := |b| - 1;
      assert Last(a + b) == Last(b) && (a + b)[..|a + b| - 1] == a + b[..n];
      PredecessorConcat(a, b[..n], at);
    }
  }

  lemma {:induction false} InRangeConcat(a: seq<Fact>, b: seq<Fact>, start: int, end: int)
    ensures InRange(a + b, start, end) == InRange(a, start, end) + InRange(b, start, end)
    decreases |b|
  {
    if b == [] {
      Sequences.Neutral(a);
      Sequences.Neutral(InRange(a, start, end));
    } else {
      var n := |b| - 1;
      assert Last(a + b) == Last(b) && (a + b)[..|a + b| - 1] == a + b[..n];
      InRangeConcat(a, b[..n], start, end);
      Sequences.Associative(InRange(a, start, end), InRange(b[..n], start, end),
                            if start <= b[n].ts < end then [b[n]] else []);
    }
  }

  /** In an ascending list the predecessor is the latest fact at or before the time. */
  lemma {:induction false} PredecessorIsLatest(fs: seq<Fact>, at: int)
    requires Ascending(fs)
    ensures Predecessor(fs, at).None? <==> forall f | f in fs :: f.ts > at
    ensures Predecessor(fs, at).Some? ==>
      var p := Predecessor(fs, at).value; p in fs && p.ts <= at && forall f | f in fs && f.ts <= at :: f.ts <= p.ts
    decreases |fs|
  {
    if fs != [] {
      var n := |fs| - 1;
      Sequences.Snoc(fs);
      PredecessorIsLatest(fs[..n], at);
    }
  }

  lemma {:induction false} PredecessorNone(fs: seq<Fact>, at: int)
    requires forall f | f in fs :: f.ts > at
    ensures Predecessor(fs, at) == None
    decreases |fs|
  {
    if fs != [] { PredecessorNone(fs[..|fs| - 1], at); }
  }

  lemma {:induction false} InRangeNone(fs: seq<Fact>, start: int, end: int)
    requires forall f | f in fs :: f.ts < start || end <= f.ts
    ensures InRange(fs, start, end) == []
    decreases |fs|
  {
    if fs != [] {
      assert Last(fs) in fs;
      InRangeNone(fs[..|fs| - 1], start, end);
    }
  }

  lemma {:induction false} InRangeIs(fs: seq<Fact>, start: int, end: int)
    ensures forall f :: f in InRange(fs, start, end) <==> f in fs && start <= f.ts < end
    decreases |fs|
  {
    if fs != [] {
      Sequences.Snoc(fs);
      InRangeIs(fs[..|fs| - 1], start, end);
    }
  }

  lemma {:induction false} InRangeAscends(fs: seq<Fact>, start: int, end: int)
    requires Ascending(fs)
    ensures Ascending(InRange(fs, start, end))
    decreases |fs|
  {
    if fs != [] {
      var n := |fs| - 1;
      var a, f := InRange(fs[..n], start, end), fs[n];
      assert InRange(fs, start, end) == a + (if start <= f.ts < end then [f] else []);
      hide InRange;
      InRangeAscends(fs[..n], start, end);
      InRangeIs(fs[..n], start, end);
      AllBelow(fs, n);
      if start <= f.ts < end { AscendingConcat(a, [f]); } else { Sequences.Neutral(a); }
    }
  }

  lemma AllBelow(fs: seq<Fact>, n: nat)
    requires Ascending(fs) && n < |fs|
    ensures forall g | g in fs[..n] :: g.ts < fs[n].ts
  {
    forall g | g in fs[..n] ensures g.ts < fs[n].ts { var j :| 0 <= j < n && fs[..n][j] == g; }
  }
}
