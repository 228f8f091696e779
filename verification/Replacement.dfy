/**
 Compaction of whole units: the tables of a run of units are written into one new unit, which
 takes their place in the catalog. No fact and no row of any key is lost, moved or repeated.
 */
module Replacement {
  import opened Prelude
  import opened Catalog
  import opened Lookups
  import opened Ranges
  import opened Compaction
  import opened SectionBuffers
  import opened Totals
  import Sequences

  lemma {:induction false} TableSectionsConcat(a: seq<Section>, b: seq<Section>, table: nat)
    ensures TableSections(a + b, table) == TableSections(a, table) + TableSections(b, table)
    decreases |b|
  {
    if b == [] {
      Sequences.Neutral(a);
      Sequences.Neutral(TableSections(a, table));
    } else {
      var n := |b| - 1;
      assert Last(a + b) == Last(b) && (a + b)[..|a + b| - 1] == a + b[..n];
      TableSectionsConcat(a, b[..n], table);
      Sequences.Associative(TableSections(a, table), TableSections(b[..n], table),
                            if b[n].table == table then [b[n]] else []);
    }
  }

  lemma {:induction false} OneTable(sections: seq<Section>, table: nat)
    requires forall i | 0 <= i < |sections| :: sections[i].table == table
    ensures TableSections(sections, table) == sections
    ensures forall other: nat | other != table :: TableSections(sections, other) == []
    decreases |sections|
  {
    if sections != [] {
      OneTable(sections[..|sections| - 1], table);
      Sequences.Snoc(sections);
    }
  }

  // ---------------------------------------------------------------- all tables

  /** The order of the sections in a unit: by table, and by time without overlap within one. */
  predicate UnitOrder(sections: seq<Section>) {
    forall i, j | 0 <= i < j < |sections| ::
      || sections[i].table < sections[j].table
      || (sections[i].table == sections[j].table && sections[i].maxTs < sections[j].minTs)
  }

  // What is written once some tables are done.
  ghost predicate WrittenTables(inputs: seq<Unit>, done: set<nat>, output: seq<Section>)
    requires UnitsOk(inputs) && SectionsOk(output)
  {
    forall table: nat ::
      && SectionsOk(SectionsOf(inputs, table)) && SectionsOk(TableSections(output, table))
      && if table in done then Rewritten(SectionsOf(inputs, table), TableSections(output, table), table)
         else TableSections(output, table) == []
  }

  lemma WrittenMore(inputs: seq<Unit>, done: set<nat>, output: seq<Section>, table: nat, more: seq<Section>)
    requires UnitsOk(inputs) && SectionsOk(output) && SectionsOk(more) && WrittenTables(inputs, done, output)
    requires table !in done && SectionsOk(SectionsOf(inputs, table))
    requires Rewritten(SectionsOf(inputs, table), more, table)
    ensures SectionsOk(output + more) && WrittenTables(inputs, done + {table}, output + more)
  {
    hide UnitOk, SectionOk, Rewritten;
    SectionsJoin(output, more);
    RewrittenTable(SectionsOf(inputs, table), more, table);
    OneTable(more, table);
    forall other: nat
      ensures SectionsOk(TableSections(output + more, other))
      ensures other == table ==> TableSections(output + more, other) == more
      ensures other != table ==> TableSections(output + more, other) == TableSections(output, other)
    {
      TableSectionsConcat(output, more, other);
      Sequences.Neutral(TableSections(output, other));
      Sequences.Neutral(more);
    }
  }

  lemma RewrittenTable(before: seq<Section>, after: seq<Section>, table: nat)
    requires SectionsOk(before) && SectionsOk(after) && Rewritten(before, after, table)
    ensures Chain(after) && forall i | 0 <= i < |after| :: after[i].table == table
  {
  }

  lemma NothingWritten(inputs: seq<Unit>)
    requires UnitsOk(inputs)
    ensures WrittenTables(inputs, {}, [])
  {
    hide SectionOk, UnitOk;
    forall table: nat ensures SectionsOk(SectionsOf(inputs, table)) && SectionsOk(TableSections([], table)) {
      SectionsOfOk(inputs, table);
    }
  }

  lemma OrderMore(output: seq<Section>, table: nat, more: seq<Section>)
    requires UnitOrder(output) && (forall s | s in output :: s.table < table)
    requires Chain(more) && forall i | 0 <= i < |more| :: more[i].table == table
    ensures UnitOrder(output + more) && forall s | s in output + more :: s.table <= table
  {
    var all := output + more;
    forall i, j | 0 <= i < j < |all|
      ensures all[i].table < all[j].table || (all[i].table == all[j].table && all[i].maxTs < all[j].minTs)
    {
      if j < |output| {
        assert all[i] == output[i] && all[j] == output[j];
      } else if i < |output| {
        assert all[i] in output && all[j] == more[j - |output|];
      } else {
        assert all[i] == more[i - |output|] && all[j] == more[j - |output|];
      }
    }
    forall s | s in all ensures s.table <= table { assert s in output || s in more; }
  }

  lemma {:induction false} Smallest(s: set<nat>) returns (least: nat)
    requires s != {}
    ensures least in s && forall y | y in s :: least <= y
    decreases |s|
  {
    least :| least in s;
    var rest := s - {least};
    if rest != {} {
      var other := Smallest(rest);
      forall y | y in s ensures y == least || other <= y {
        if y != least { assert y in rest; }
      }
      if other < least { least := other; }
    }
  }

  // What holds of the output once some tables are done.
  ghost predicate Merging(inputs: seq<Unit>, limits: Limits, done: set<nat>, output: seq<Section>)
    requires UnitsOk(inputs)
  {
    && SectionsOk(output) && AllWithin(limits, output) && Packed(limits, output) && UnitOrder(output)
    && (forall s | s in output :: s.table in done) && WrittenTables(inputs, done, output)
  }

  lemma MergingNext(inputs: seq<Unit>, limits: Limits, done: set<nat>, output: seq<Section>, table: nat,
                    more: seq<Section>)
    requires UnitsOk(inputs) && Merging(inputs, limits, done, output) && (forall x | x in done :: x < table)
    requires SectionsOk(SectionsOf(inputs, table)) && SectionsOk(more)
    requires Rewritten(SectionsOf(inputs, table), more, table)
    requires AllWithin(limits, more) && Packed(limits, more)
    ensures Merging(inputs, limits, done + {table}, output + more)
  {
    hide UnitOk, SectionOk, Rewritten, WrittenTables, AllWithin, Within, UnitOrder, Packed;
    WrittenMore(inputs, done, output, table, more);
    WithinMore(limits, output, more);
    if more != [] { FirstOfTable(inputs, table, more); }
    PackedJoin(limits, output, more);
    TableOrder(inputs, output, table, more);
  }

  lemma FirstOfTable(inputs: seq<Unit>, table: nat, more: seq<Section>)
    requires SectionsOk(SectionsOf(inputs, table)) && SectionsOk(more) && more != []
    requires Rewritten(SectionsOf(inputs, table), more, table)
    ensures more[0].table == table
  {
    hide SectionOk, SealedFacts, SealedTags, AllRows, AllVersions, Used, SectionsOf;
  }

  lemma MergingBegins(inputs: seq<Unit>, limits: Limits)
    requires UnitsOk(inputs)
    ensures Merging(inputs, limits, {}, [])
  {
    NothingWritten(inputs);
  }

  predicate Before(done: set<nat>, todo: set<nat>) { forall x, y | x in done && y in todo :: x < y }

  lemma NextBegins(todo: set<nat>)
    ensures Before({}, todo)
  {
  }

  lemma NextTable(done: set<nat>, todo: set<nat>, table: nat)
    requires Before(done, todo) && table in todo && forall y | y in todo :: table <= y
    ensures Before(done + {table}, todo - {table}) && table !in done && forall x | x in done :: x < table
  {
  }

  /** Units whose tables can all be merged, with no section of an unknown table. */
  ghost predicate MergeableUnits(inputs: seq<Unit>, tables: map<nat, Table>, limits: Limits)
    requires UnitsOk(inputs)
  {
    && (forall table | table in tables :: MergeableTable(inputs, table, tables[table], limits))
    && forall i | 0 <= i < |inputs| :: forall s | s in inputs[i].sections :: s.table in tables
  }

  ghost predicate MergeableTable(inputs: seq<Unit>, table: nat, t: Table, limits: Limits)
    requires UnitsOk(inputs)
  {
    SectionsOfOk(inputs, table);
    Mergeable(t, limits, SectionsOf(inputs, table))
  }

  // The tables done so far had only sections of known versions.
  ghost predicate KnownTables(inputs: seq<Unit>, tables: map<nat, Table>, done: set<nat>) {
    forall table | table in done :: table in tables && AllKnown(tables[table], SectionsOf(inputs, table))
  }

  lemma KnownTablesMore(inputs: seq<Unit>, tables: map<nat, Table>, done: set<nat>, table: nat)
    requires KnownTables(inputs, tables, done) && table in tables
    requires AllKnown(tables[table], SectionsOf(inputs, table))
    ensures KnownTables(inputs, tables, done + {table})
  {
    hide AllKnown, SectionsOf;
  }

  lemma NotMergeableUnits(inputs: seq<Unit>, tables: map<nat, Table>, limits: Limits, table: nat)
    requires UnitsOk(inputs) && SectionsOk(SectionsOf(inputs, table)) && table in tables
    requires !Mergeable(tables[table], limits, SectionsOf(inputs, table))
    ensures !MergeableUnits(inputs, tables, limits)
  {
    hide UnitOk, SectionOk, Mergeable, SectionsOf;
    assert !MergeableTable(inputs, table, tables[table], limits);
  }

  /**
   Merges units table by table. It succeeds only when every section of every unit was of a
   known table and version, and then the output holds exactly the facts and rows of the input;
   it fails only where a table cannot be merged.
   */
  method Merge(inputs: seq<Unit>, tables: map<nat, Table>, limits: Limits) returns (r: Result<seq<Section>>)
    requires UnitsOk(inputs)
    ensures r.Ok? ==> Merging(inputs, limits, tables.Keys, r.value) && KnownTables(inputs, tables, tables.Keys)
    ensures r.Ok? ==> forall i | 0 <= i < |inputs| :: forall s | s in inputs[i].sections :: s.table in tables
    ensures r.Err? ==> !MergeableUnits(inputs, tables, limits)
  {
    hide *;
    var output, todo := [], tables.Keys;
    var counts := NoCounts(inputs);
    MergingBegins(inputs, limits);
    ghost var done: set<nat> := {};
    NextBegins(todo);
    NoTables(inputs, tables);
    while todo != {}
      invariant done == tables.Keys - todo && todo <= tables.Keys && Before(done, todo)
      invariant Merging(inputs, limits, done, output) && CountsOf(inputs, done, counts)
      invariant KnownTables(inputs, tables, done)
      decreases |todo|
    {
      ghost var least := Smallest(todo);
      var table :| table in todo && forall y | y in todo :: table <= y;
      NextTable(done, todo, table);
      counts := CountTable(inputs, table, counts, done);
      var more := MergeTable(inputs, table, tables[table], limits);
      if more.Err? {
        NotMergeableUnits(inputs, tables, limits, table);
        return Err(more.error);
      }
      MergingNext(inputs, limits, done, output, table, more.value);
      KnownTablesMore(inputs, tables, done, table);
      output, todo, done := output + more.value, todo - {table}, done + {table};
    }
    assert done == tables.Keys;
    var all := AllCounted(inputs, counts, tables.Keys);
    if !all { StraySection(inputs, tables, limits); }
    return if all then Ok(output) else Err(Corruption);
  }

  lemma NoTables(inputs: seq<Unit>, tables: map<nat, Table>)
    ensures KnownTables(inputs, tables, {})
  {
  }

  lemma StraySection(inputs: seq<Unit>, tables: map<nat, Table>, limits: Limits)
    requires UnitsOk(inputs)
    requires !(forall i | 0 <= i < |inputs| :: forall s | s in inputs[i].sections :: s.table in tables.Keys)
    ensures !MergeableUnits(inputs, tables, limits)
  {
    hide UnitOk, MergeableTable;
  }

  lemma TableOrder(inputs: seq<Unit>, output: seq<Section>, table: nat, more: seq<Section>)
    requires SectionsOk(SectionsOf(inputs, table)) && SectionsOk(more)
    requires Rewritten(SectionsOf(inputs, table), more, table)
    requires UnitOrder(output) && forall s | s in output :: s.table < table
    ensures UnitOrder(output + more) && forall s | s in output + more :: s in output || s.table == table
  {
    hide SectionOk, SealedFacts, SealedTags, AllRows, AllVersions, Used;
    OrderMore(output, table, more);
  }

  // ------------------------------------------------------------------ the catalog

  /** The sections of a table follow each other exactly when all their rows ascend. */
  lemma {:induction false} ChainIsRising(ss: seq<Section>)
    requires SectionsOk(ss)
    ensures Chain(ss) <==> Rising(AllRows(ss))
    decreases |ss|
  {
    if ss != [] {
      ChainIsRising(ss[..|ss| - 1]);
      if Chain(ss) { LastFollows(ss); }
      LastRises(ss);
    }
  }

  lemma LastFollows(ss: seq<Section>)
    requires SectionsOk(ss) && ss != [] && Chain(ss) && (Chain(ss[..|ss| - 1]) ==> Rising(AllRows(ss[..|ss| - 1])))
    ensures Rising(AllRows(ss))
  {
    hide AllRows;
    var n := |ss| - 1;
    var last := ss[n];
    assert SectionOk(last);
    LastOfAll(ss);
    if n > 0 { assert ss[n - 1].maxTs < last.minTs; }
    RowsBelowNext(ss[..n], last.minTs);
    RisingJoin(AllRows(ss[..n]), last.timestamps);
  }

  lemma LastOfAll(ss: seq<Section>)
    requires ss != []
    ensures AllRows(ss) == AllRows(ss[..|ss| - 1]) + Last(ss).timestamps
  {
  }

  lemma LastRises(ss: seq<Section>)
    requires SectionsOk(ss) && ss != [] && (Rising(AllRows(ss[..|ss| - 1])) ==> Chain(ss[..|ss| - 1]))
    ensures Rising(AllRows(ss)) ==> Chain(ss)
  {
    hide AllRows, Rising, Chain, SectionOk;
    LastOfAll(ss);
    if Rising(AllRows(ss)) {
      RisingParts(AllRows(ss[..|ss| - 1]), Last(ss).timestamps);
      forall i | 0 <= i < |ss| - 1 ensures ss[i].maxTs < Last(ss).minTs { EarlierEnds(ss, i); }
      ChainJoin(ss);
    }
  }

  lemma EarlierEnds(ss: seq<Section>, i: nat)
    requires SectionsOk(ss) && i < |ss| - 1 && Apart(AllRows(ss[..|ss| - 1]), Last(ss).timestamps)
    ensures ss[i].maxTs < Last(ss).minTs
  {
    hide AllRows;
    assert SectionOk(Last(ss));
    EndIsRow(ss[..|ss| - 1], i);
    assert Last(ss).timestamps[0] == Last(ss).minTs;
    assert ss[..|ss| - 1][i].maxTs in AllRows(ss[..|ss| - 1]) && Last(ss).minTs in Last(ss).timestamps;
  }

  lemma RisingJoin(a: seq<I64>, b: seq<I64>)
    requires Rising(a) && Rising(b) && b != [] && forall x | x in a :: x < b[0]
    ensures Rising(a + b)
  {
    forall i | 0 <= i < |a| ensures a[i] < b[0] { assert a[i] in a; }
  }

  predicate Apart(a: seq<I64>, b: seq<I64>) { forall x, y | x in a && y in b :: x < y }

  lemma RisingParts(a: seq<I64>, b: seq<I64>)
    requires Rising(a + b)
    ensures Rising(a) && Apart(a, b)
  {
    var c := a + b;
    assert forall i | 0 <= i < |a| :: c[i] == a[i];
    forall x, y | x in a && y in b ensures x < y {
      var i :| 0 <= i < |a| && a[i] == x;
      var j :| 0 <= j < |b| && b[j] == y;
      assert c[i] == x && c[|a| + j] == y;
    }
  }

  lemma ChainJoin(ss: seq<Section>)
    requires ss != [] && Chain(ss[..|ss| - 1]) && forall i | 0 <= i < |ss| - 1 :: ss[i].maxTs < Last(ss).minTs
    ensures Chain(ss)
  {
    var n := |ss| - 1;
    forall i, j | 0 <= i < j < |ss| ensures ss[i].maxTs < ss[j].minTs {
      if j < n { assert ss[..n][i].maxTs < ss[..n][j].minTs; }
    }
  }

  // Both ends of a section are rows.
  lemma {:induction false} EndIsRow(ss: seq<Section>, i: nat)
    requires SectionsOk(ss) && i < |ss|
    ensures ss[i].maxTs in AllRows(ss) && ss[i].minTs in AllRows(ss)
    decreases |ss|
  {
    var n := |ss| - 1;
    if i < n {
      EndIsRow(ss[..n], i);
    } else {
      var s := ss[n];
      assert SectionOk(s);
      assert s.timestamps[0] == s.minTs && s.timestamps[|s.timestamps| - 1] == s.maxTs;
    }
  }

  lemma {:induction false} RowOfSection(ss: seq<Section>, x: I64)
    requires SectionsOk(ss) && x in AllRows(ss)
    ensures exists i :: 0 <= i < |ss| && ss[i].minTs <= x <= ss[i].maxTs
    decreases |ss|
  {
    if ss != [] {
      var n := |ss| - 1;
      var s := ss[n];
      assert SectionOk(s);
      if x in AllRows(ss[..n]) {
        RowOfSection(ss[..n], x);
        var i :| 0 <= i < n && ss[..n][i].minTs <= x <= ss[..n][i].maxTs;
        assert ss[i].minTs <= x <= ss[i].maxTs;
      } else {
        var p :| 0 <= p < |s.timestamps| && s.timestamps[p] == x;
        assert s.timestamps[0] <= x <= s.timestamps[|s.timestamps| - 1];
      }
    }
  }

  lemma {:induction false} AllRowsConcat(a: seq<Section>, b: seq<Section>)
    ensures AllRows(a + b) == AllRows(a) + AllRows(b)
    decreases |b|
  {
    if b == [] {
      Sequences.Neutral(a);
      Sequences.Neutral(AllRows(a));
    } else {
      var n := |b| - 1;
      assert Last(a + b) == Last(b) && (a + b)[..|a + b| - 1] == a + b[..n];
      AllRowsConcat(a, b[..n]);
      Sequences.Associative(AllRows(a), AllRows(b[..n]), b[n].timestamps);
    }
  }

  // One unit that holds what several did.
  ghost predicate Replaces(inputs: seq<Unit>, u: Unit)
    requires UnitsOk(inputs) && UnitOk(u)
  {
    forall table: nat ::
      && SectionsOk(SectionsOf(inputs, table)) && SectionsOk(TableSections(u.sections, table))
      && Rewritten(SectionsOf(inputs, table), TableSections(u.sections, table), table)
  }

  /** Putting the new unit in place of the others changes no fact of any key, and keeps every table in order. */
  lemma ReplacedKeepsFacts(a: seq<Unit>, inputs: seq<Unit>, b: seq<Unit>, u: Unit, t: Table, k: Key)
    requires UnitsOk(a) && UnitsOk(inputs) && UnitsOk(b) && UnitOk(u) && Replaces(inputs, u)
    ensures UnitsOk(a + inputs + b) && UnitsOk(a + [u] + b)
    ensures AllFacts(a + [u] + b, t, k) == AllFacts(a + inputs + b, t, k)
    ensures OrderedTable(a + inputs + b, k.table, t) <==> OrderedTable(a + [u] + b, k.table, t)
  {
    hide UnitOk, SectionOk, SealedFacts, SealedTags, Chain, AllRows, AllVersions, SectionsOf, TailOf, Used;
    UnitSections(u, k.table);
    RunFacts(a, inputs, b, k);
    RunFacts(a, [u], b, k);
    RowsDecide(a + inputs + b, a + [u] + b, k.table, t);
  }

  lemma UnitSections(u: Unit, table: nat)
    requires UnitOk(u)
    ensures SectionsOf([u], table) == TableSections(u.sections, table) && UnitsOk([u])
  {
    hide UnitOk;
    assert [u][..0] == [];
    assert SectionsOf([], table) == [];
    Sequences.Neutral(TableSections(u.sections, table));
  }

  // The facts and rows of a run of units between others.
  lemma RunFacts(a: seq<Unit>, run: seq<Unit>, b: seq<Unit>, k: Key)
    requires UnitsOk(a) && UnitsOk(run) && UnitsOk(b)
    ensures UnitsOk(a + run + b)
    ensures SectionsOk(SectionsOf(a, k.table)) && SectionsOk(SectionsOf(run, k.table))
    ensures SectionsOk(SectionsOf(b, k.table))
    ensures SectionsOk(SectionsOf(a + run + b, k.table))
    ensures SealedFacts(SectionsOf(a + run + b, k.table), k) ==
            SealedFacts(SectionsOf(a, k.table), k) + SealedFacts(SectionsOf(run, k.table), k)
            + SealedFacts(SectionsOf(b, k.table), k)
    ensures AllRows(SectionsOf(a + run + b, k.table)) ==
            AllRows(SectionsOf(a, k.table)) + AllRows(SectionsOf(run, k.table)) + AllRows(SectionsOf(b, k.table))
  {
    hide UnitOk, SectionOk, SealedFacts, AllRows, SectionsOf;
    var x, y, z := SectionsOf(a, k.table), SectionsOf(run, k.table), SectionsOf(b, k.table);
    SectionsOfOk(a, k.table);
    SectionsOfOk(run, k.table);
    SectionsOfOk(b, k.table);
    SectionsConcat(a, run, k.table);
    SectionsConcat(a + run, b, k.table);
    SectionsJoin(x, y);
    SectionsJoin(x + y, z);
    SealedConcat(x, y, k);
    SealedConcat(x + y, z, k);
    AllRowsConcat(x, y);
    AllRowsConcat(x + y, z);
  }

  // Whether a table is in order is a matter of its rows.
  lemma RowsDecide(before: seq<Unit>, after: seq<Unit>, table: nat, t: Table)
    requires UnitsOk(before) && UnitsOk(after)
    requires AllRows(SectionsOf(before, table)) == AllRows(SectionsOf(after, table))
    ensures OrderedTable(before, table, t) <==> OrderedTable(after, table, t)
  {
    hide UnitOk, SectionOk, AllRows, Rising;
    SectionsOfOk(before, table);
    SectionsOfOk(after, table);
    var x, y := SectionsOf(before, table), SectionsOf(after, table);
    ChainIsRising(x);
    ChainIsRising(y);
    if Chain(x) { LastIsNewest(x); LastIsNewest(y); }
    NoRows(x);
    NoRows(y);
  }

  lemma LastIsNewest(ss: seq<Section>)
    requires SectionsOk(ss) && Chain(ss)
    ensures ss != [] ==> Last(ss).maxTs in AllRows(ss) && forall x | x in AllRows(ss) :: x <= Last(ss).maxTs
  {
    if ss != [] {
      hide SectionOk, AllRows;
      EndIsRow(ss, |ss| - 1);
      RowsBelowNext(ss, Last(ss).maxTs + 1);
    }
  }

  lemma NoRows(ss: seq<Section>)
    requires SectionsOk(ss)
    ensures AllRows(ss) == [] <==> ss == []
  {
    if ss != [] { assert SectionOk(Last(ss)); }
  }
}
