/**
 A catalog that a compaction leaves out of order. Two units of level one and the sealed one
 after them all begin at the same time. The new unit has the highest number, so it is sorted
 behind the third one, whose rows of table 1 are newer.
 */
module CompactionExample {
  import opened Prelude
  import opened Cells
  import opened Catalog
  import opened Lookups
  import opened SectionBuffers
  import opened Compaction
  import opened Replacement
  import opened UnitCompaction
  import Sequences

  // A section of one row with one fact.
  function Row(table: nat, ts: I64): Section {
    Section(table, 1, ts, ts, [ts], [Column(1, 1, UIntType, [Some(UInt(7))])])
  }

  function First(): Unit { Unit(3, 0, 1, [Row(1, 1), Row(2, 0)]) }

  function Second(): Unit { Unit(6, 0, 0, [Row(4, 0)]) }

  function Third(): Unit { Unit(7, 0, 2, [Row(1, 2), Row(3, 0)]) }

  function Merged(): Unit { Unit(8, 0, 1, [Row(1, 1), Row(2, 0), Row(4, 0)]) }

  // Limits that refuse nothing.
  function Ample(): Limits { Limits(0, (_, _, _) => Some(0)) }

  function Before(): seq<Unit> { [First(), Second(), Third()] }

  function After(): seq<Unit> { [Third(), Merged()] }

  lemma RowOk(table: nat, ts: I64)
    ensures SectionOk(Row(table, ts)) && Within(Ample(), Row(table, ts))
  {
    var s := Row(table, ts);
    var places := CellsIn(s.columns, 1);
    forall p | p in places ensures p == ((1, 1), 0) { }
    assert ColumnsOk(s.columns, 1);
  }

  lemma FirstOk()
    requires forall table: nat, ts: I64 :: SectionOk(Row(table, ts))
    ensures Exact(First())
  {
    hide SectionOk;
    var u := First();
    assert u.sections[1].minTs == 0 && u.sections[0].maxTs == 1;
  }

  lemma ThirdOk()
    requires forall table: nat, ts: I64 :: SectionOk(Row(table, ts))
    ensures Exact(Third())
  {
    hide SectionOk;
    var u := Third();
    assert u.sections[1].minTs == 0 && u.sections[0].maxTs == 2;
  }

  lemma MergedOk()
    requires forall table: nat, ts: I64 :: SectionOk(Row(table, ts))
    ensures Exact(Merged())
  {
    hide SectionOk;
    var u := Merged();
    assert u.sections[1].minTs == 0 && u.sections[0].maxTs == 1;
  }

  lemma SecondOk()
    requires forall table: nat, ts: I64 :: SectionOk(Row(table, ts))
    ensures Exact(Second())
  {
    hide SectionOk;
    var u := Second();
    assert u.sections[0].minTs == 0 && u.sections[0].maxTs == 0;
  }

  lemma UnitsExact()
    ensures Exact(First()) && Exact(Second()) && Exact(Third()) && Exact(Merged())
    ensures UnitOk(First()) && UnitOk(Second()) && UnitOk(Third()) && UnitOk(Merged())
  {
    forall table: nat, ts: I64 ensures SectionOk(Row(table, ts)) { RowOk(table, ts); }
    hide SectionOk, Exact, UnitOk, First, Second, Third, Merged;
    FirstOk();
    SecondOk();
    ThirdOk();
    MergedOk();
    ExactOk(First());
    ExactOk(Second());
    ExactOk(Third());
    ExactOk(Merged());
  }

  lemma UnitsFine()
    ensures UnitsOk(Before()) && AllExact(Before()) && Exact(Merged()) && UnitOk(Merged())
    ensures UnitsOk([First(), Second()]) && UnitsOk(After())
  {
    hide UnitOk, Exact, First, Second, Third, Merged;
    UnitsExact();
  }

  lemma UnitsInOrder()
    ensures UnitsSorted(Before()) && Older(Before(), 8)
  {
  }

  lemma OfOne(s: Section, table: nat)
    ensures TableSections([s], table) == if s.table == table then [s] else []
  {
    assert [s][..0] == [];
    assert TableSections([], table) == [];
  }

  lemma OfTwo(a: Section, b: Section, table: nat)
    ensures TableSections([a, b], table) == TableSections([a], table) + TableSections([b], table)
  {
    assert [a, b] == [a] + [b];
    TableSectionsConcat([a], [b], table);
  }

  // The new unit holds the sections of the first two, table by table.
  lemma SameSections(table: nat)
    ensures SectionsOf([First(), Second()], table) == TableSections(Merged().sections, table)
    ensures |TableSections(Merged().sections, table)| <= 1
  {
    hide SectionsOf, TableSections;
    var a, b, c := Row(1, 1), Row(2, 0), Row(4, 0);
    OfUnits(First(), Second(), table);
    assert [a, b, c] == [a, b] + [c];
    OfOne(a, table);
    OfOne(b, table);
    OfOne(c, table);
    OfTwo(a, b, table);
    TableSectionsConcat([a, b], [c], table);
  }

  lemma OfUnits(a: Unit, b: Unit, table: nat)
    ensures SectionsOf([a, b], table) == TableSections(a.sections + b.sections, table)
  {
    hide TableSections;
    assert [a, b][..1] == [a] && [a][..0] == [];
    assert SectionsOf([a], table) == SectionsOf([], table) + TableSections(a.sections, table);
    assert SectionsOf([], table) == [];
    Sequences.Neutral(TableSections(a.sections, table));
    TableSectionsConcat(a.sections, b.sections, table);
  }

  // Sections that stay as they are count as rewritten.
  lemma RewrittenSelf(ss: seq<Section>, table: nat)
    requires SectionsOk(ss) && Chain(ss) && forall i | 0 <= i < |ss| :: ss[i].table == table && Used(ss[i])
    ensures Rewritten(ss, ss, table)
  {
    hide SectionOk, SealedFacts, SealedTags, AllRows, AllVersions, Used, Chain;
  }

  lemma RowUsed(table: nat, ts: I64)
    ensures SectionOk(Row(table, ts)) && Used(Row(table, ts))
  {
    RowOk(table, ts);
    assert Row(table, ts).timestamps[..0] == [] && Row(table, ts).columns[0].cells[..0] == [];
  }

  lemma MergedTable(table: nat)
    requires UnitsOk([First(), Second()])
    ensures SectionsOk(SectionsOf([First(), Second()], table))
    ensures SectionsOf([First(), Second()], table) == TableSections(Merged().sections, table)
    ensures Rewritten(SectionsOf([First(), Second()], table), TableSections(Merged().sections, table), table)
  {
    hide UnitOk, SectionOk, Rewritten, Used, SectionsOf, TableSections, Row;
    SameSections(table);
    SectionsOfOk([First(), Second()], table);
    TableSectionsOk(Merged().sections, table);
    RowUsed(1, 1);
    RowUsed(2, 0);
    RowUsed(4, 0);
    var ss := TableSections(Merged().sections, table);
    forall i | 0 <= i < |ss| ensures ss[i].table == table && Used(ss[i]) { assert ss[i] in ss; }
    RewrittenSelf(ss, table);
  }

  lemma MergedReplacesBoth()
    requires UnitsOk([First(), Second()]) && UnitOk(Merged())
    ensures Replaces([First(), Second()], Merged())
  {
    hide UnitOk, SectionOk, Rewritten, SectionsOf, TableSections, First, Second, Merged;
    forall table: nat
      ensures SectionsOk(SectionsOf([First(), Second()], table))
      ensures SectionsOk(TableSections(Merged().sections, table))
      ensures Rewritten(SectionsOf([First(), Second()], table), TableSections(Merged().sections, table), table)
    {
      MergedTable(table);
    }
  }

  lemma SortedBehind()
    ensures Inserted(Before()[..0] + Before()[2..], Merged()) == After()
  {
    assert Before()[..0] + Before()[2..] == [Third()];
    assert [Third()][..0] == [];
  }

  lemma SectionsTwo(a: Unit, b: Unit, table: nat)
    ensures SectionsOf([a, b], table) == TableSections(a.sections, table) + TableSections(b.sections, table)
  {
    hide TableSections;
    assert [a, b][..1] == [a] && [a][..0] == [];
    assert SectionsOf([], table) == [];
    assert SectionsOf([a], table) == [] + TableSections(a.sections, table);
    assert SectionsOf([a, b], table) == SectionsOf([a], table) + TableSections(b.sections, table);
    Sequences.Neutral(TableSections(a.sections, table));
  }

  lemma ThirdOne()
    ensures TableSections(Third().sections, 1) == [Row(1, 2)]
  {
    OfOne(Row(1, 2), 1);
    OfOne(Row(3, 0), 1);
    OfTwo(Row(1, 2), Row(3, 0), 1);
  }

  lemma MergedOne()
    ensures TableSections(Merged().sections, 1) == [Row(1, 1)]
  {
    OfOne(Row(1, 1), 1);
    OfOne(Row(2, 0), 1);
    OfOne(Row(4, 0), 1);
    OfTwo(Row(1, 1), Row(2, 0), 1);
    assert Merged().sections == [Row(1, 1), Row(2, 0)] + [Row(4, 0)];
    TableSectionsConcat([Row(1, 1), Row(2, 0)], [Row(4, 0)], 1);
  }

  // The sections of table 1, before and after.
  lemma TableOne()
    ensures SectionsOf(Before(), 1) == [Row(1, 1), Row(1, 2)] && SectionsOf(After(), 1) == [Row(1, 2), Row(1, 1)]
  {
    hide TableSections, First, Second, Third, Merged, Row;
    SameSections(1);
    ThirdOne();
    MergedOne();
    SectionsTwo(Third(), Merged(), 1);
    LastOfThree();
  }

  lemma LastOfThree()
    ensures SectionsOf(Before(), 1) == SectionsOf([First(), Second()], 1) + TableSections(Third().sections, 1)
  {
    hide TableSections, First, Second, Third;
    assert Before()[..2] == [First(), Second()];
  }

  lemma NewOk()
    ensures SectionsOk(Merged().sections) && AllWithin(Ample(), Merged().sections) && UnitOrder(Merged().sections)
  {
    hide SectionOk, Within;
    RowOk(1, 1);
    RowOk(2, 0);
    RowOk(4, 0);
  }

  lemma RunCompacted()
    requires UnitsOk(Before()) && UnitsOk([First(), Second()]) && Exact(Merged()) && UnitOk(Merged())
    ensures Compacted(Before(), 0, 2, 8, Ample(), Merged(), After())
  {
    hide UnitOk, Exact, Replaces, AllWithin, UnitOrder, Inserted, First, Second, Third;
    SortedBehind();
    MergedReplacesBoth();
    NewOk();
    assert Before()[0..2] == [First(), Second()];
  }

  lemma TablesDisordered(t: Table)
    requires t.firstRow.None?
    ensures OrderedTable(Before(), 1, t) && !OrderedTable(After(), 1, t)
  {
    hide SectionsOf, Before, After;
    TableOne();
    var out := SectionsOf(After(), 1);
    assert out[0].maxTs == 2 && out[1].minTs == 1;
  }

  // The first two units come from earlier compactions, and the third one from sealing.
  const LEVELS: seq<nat> := [1, 1, 0]

  /**
   A legal compaction of a catalog in order, of the very run that its level would choose, after
   which table 1 is out of order.
   */
  lemma CompactionMayDisorder(t: Table)
    requires t.firstRow.None?
    ensures UnitsOk(Before()) && UnitsSorted(Before()) && AllExact(Before()) && Older(Before(), 8)
    ensures Compacted(Before(), 0, 2, 8, Ample(), Merged(), After())
    ensures |LEVELS| == |Before()| && Selected(LEVELS, 1, 0, 2)
    ensures OrderedTable(Before(), 1, t) && !OrderedTable(After(), 1, t)
  {
    hide UnitOk, Exact, UnitsSorted, Older, Compacted, OrderedTable, First, Second, Third, Merged, After;
    UnitsFine();
    UnitsInOrder();
    RunCompacted();
    TablesDisordered(t);
  }
}
