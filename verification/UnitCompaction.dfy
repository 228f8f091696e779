/** Compaction in the catalog: a run of units becomes one new unit, sorted into the catalog. */
module UnitCompaction {
  import opened Prelude
  import opened Catalog
  import opened Lookups
  import opened Compaction
  import opened CompactionSchemas
  import opened SectionBuffers
  import opened Replacement
  import Sequences

  /** The range in the header of a unit is exactly that of its sections. */
  predicate Exact(u: Unit) {
    && UnitOk(u) && (exists i :: 0 <= i < |u.sections| && u.sections[i].minTs == u.minTs)
    && exists i :: 0 <= i < |u.sections| && u.sections[i].maxTs == u.maxTs
  }

  predicate AllExact(units: seq<Unit>) { forall i | 0 <= i < |units| :: Exact(units[i]) }

  predicate Older(units: seq<Unit>, id: nat) { forall i | 0 <= i < |units| :: units[i].id < id }

  // ------------------------------------------------------------------- sorting

  /** A catalog sorted by earliest row and number, after one more unit. */
  function Inserted(units: seq<Unit>, u: Unit): seq<Unit> {
    if units == [] || Routed(Last(units), u) then units + [u] else Inserted(units[..|units| - 1], u) + [Last(units)]
  }

  /** It is the sorted list of all of them. */
  lemma {:induction false} InsertedSorted(units: seq<Unit>, u: Unit)
    requires UnitsSorted(units) && Older(units, u.id)
    ensures UnitsSorted(Inserted(units, u)) && multiset(Inserted(units, u)) == multiset(units) + multiset{u}
    decreases |units|
  {
    InsertedAll(units, u);
    hide UnitsSorted, Older;
    if units == [] || Routed(Last(units), u) {
      AppendedSorted(units, u);
    } else {
      var n := |units| - 1;
      PrefixSorted(units, n, u.id);
      InsertedSorted(units[..n], u);
      LastInserted(units[..n], u);
      SortedSnoc(units, u, Inserted(units[..n], u));
    }
  }

  lemma {:induction false} InsertedAll(units: seq<Unit>, u: Unit)
    ensures multiset(Inserted(units, u)) == multiset(units) + multiset{u}
    decreases |units|
  {
    if units != [] && !Routed(Last(units), u) {
      InsertedAll(units[..|units| - 1], u);
      assert units == units[..|units| - 1] + [Last(units)];
    }
  }

  lemma AppendedSorted(units: seq<Unit>, u: Unit)
    requires UnitsSorted(units) && Older(units, u.id) && (units != [] ==> Routed(Last(units), u))
    ensures UnitsSorted(units + [u])
  {
  }

  lemma PrefixSorted(units: seq<Unit>, n: nat, id: nat)
    requires UnitsSorted(units) && Older(units, id) && n <= |units|
    ensures UnitsSorted(units[..n]) && Older(units[..n], id)
  {
  }

  lemma SortedSnoc(units: seq<Unit>, u: Unit, before: seq<Unit>)
    requires units != [] && UnitsSorted(units) && Older(units, u.id) && !Routed(Last(units), u)
    requires UnitsSorted(before) && multiset(before) == multiset(units[..|units| - 1]) + multiset{u}
    requires before != [] && Last(before) == if |units| == 1 || Routed(units[|units| - 2], u) then u
    else units[|units| - 2]
    ensures UnitsSorted(before + [Last(units)])
  {
    var n := |units| - 1;
    forall i | 0 <= i < |before| ensures before[i].id != units[n].id {
      assert before[i] in multiset(before);
      assert before[i] in multiset(units[..n]) || before[i] == u;
    }
  }

  lemma LastInserted(units: seq<Unit>, u: Unit)
    ensures Inserted(units, u) != []
    ensures Last(Inserted(units, u)) == if units == [] || Routed(Last(units), u) then u else Last(units)
  {
  }


  /**
   A new unit takes the place of those it was made of exactly when the unit after them begins
   later: its number is the highest, so among equal beginnings it comes last.
   */
  lemma InsertedInPlace(a: seq<Unit>, b: seq<Unit>, u: Unit)
    requires UnitsSorted(a + b) && Older(a + b, u.id) && (a != [] ==> Last(a).minTs <= u.minTs)
    ensures Inserted(a + b, u) == a + [u] + b <==> b == [] || u.minTs < b[0].minTs
  {
    if b == [] || u.minTs < b[0].minTs {
      BeginsLater(a, b, u);
      forall i | 0 <= i < |a| ensures a[i].id < u.id { assert a[i] == (a + b)[i]; }
      PutBetween(a, b, u);
    } else {
      InsertedSorted(a + b, u);
      assert (a + b)[|a|] == b[0];
      NotBetween(a, b, u);
    }
  }

  lemma NotBetween(a: seq<Unit>, b: seq<Unit>, u: Unit)
    requires b != [] && b[0].id < u.id && b[0].minTs <= u.minTs
    ensures !UnitsSorted(a + [u] + b)
  {
    var all := a + [u] + b;
    assert all[|a|] == u && all[|a| + 1] == b[0];
    assert UnitsSorted(all) ==> Routed(all[|a| + 1 - 1], all[|a| + 1]);
  }

  lemma BeginsLater(a: seq<Unit>, b: seq<Unit>, u: Unit)
    requires UnitsSorted(a + b) && (b != [] ==> u.minTs < b[0].minTs)
    ensures forall i | 0 <= i < |b| :: u.minTs < b[i].minTs
  {
    forall i | 0 <= i < |b| ensures u.minTs < b[i].minTs {
      assert (a + b)[|a|] == b[0] && (a + b)[|a| + i] == b[i];
      SortedMins(a + b, |a|, |a| + i);
    }
  }

  lemma {:induction false} PutBetween(a: seq<Unit>, b: seq<Unit>, u: Unit)
    requires Older(a, u.id) && (a != [] ==> Last(a).minTs <= u.minTs) && forall i | 0 <= i < |b| :: u.minTs < b[i].minTs
    ensures Inserted(a + b, u) == a + [u] + b
    decreases |b|
  {
    if b == [] {
      Sequences.Neutral(a);
      Sequences.Neutral(a + [u]);
    } else {
      var n := |b| - 1;
      assert Last(a + b) == b[n] && (a + b)[..|a + b| - 1] == a + b[..n];
      PutBetween(a, b[..n], u);
      Sequences.Snoc(b);
      Sequences.Associative(a + [u], b[..n], [b[n]]);
    }
  }

  // -------------------------------------------------------------- the units left

  /** The catalog without the units that were replaced. */
  function Without(units: seq<Unit>, ids: set<nat>): seq<Unit> {
    if units == [] then []
    else Without(units[..|units| - 1], ids) + (if Last(units).id in ids then [] else [Last(units)])
  }

  lemma {:induction false} WithoutConcat(a: seq<Unit>, b: seq<Unit>, ids: set<nat>)
    ensures Without(a + b, ids) == Without(a, ids) + Without(b, ids)
    decreases |b|
  {
    if b == [] {
      Sequences.Neutral(a);
      Sequences.Neutral(Without(a, ids));
    } else {
      var n := |b| - 1;
      assert Last(a + b) == Last(b) && (a + b)[..|a + b| - 1] == a + b[..n];
      WithoutConcat(a, b[..n], ids);
      Sequences.Associative(Without(a, ids), Without(b[..n], ids), if b[n].id in ids then [] else [b[n]]);
    }
  }

  lemma {:induction false} WithoutEnds(units: seq<Unit>, ids: set<nat>)
    ensures (forall i | 0 <= i < |units| :: units[i].id !in ids) ==> Without(units, ids) == units
    ensures (forall i | 0 <= i < |units| :: units[i].id in ids) ==> Without(units, ids) == []
    decreases |units|
  {
    if units != [] {
      WithoutEnds(units[..|units| - 1], ids);
      Sequences.Snoc(units);
    }
  }

  // Numbers are distinct, so dropping a run by number leaves what is around it.
  lemma WithoutRun(units: seq<Unit>, start: nat, end: nat, ids: set<nat>)
    requires UnitsSorted(units) && start <= end <= |units|
    requires forall id :: id in ids <==> exists i :: start <= i < end && units[i].id == id
    ensures Without(units, ids) == units[..start] + units[end..]
  {
    hide Without;
    var a, run, b := units[..start], units[start..end], units[end..];
    assert units == a + run + b;
    forall i | 0 <= i < |a| ensures a[i].id !in ids { assert a[i] == units[i]; }
    forall i | 0 <= i < |b| ensures b[i].id !in ids { assert b[i] == units[end + i]; }
    forall i | 0 <= i < |run| ensures run[i].id in ids { assert run[i] == units[start + i]; }
    WithoutMiddle(a, run, b, ids);
  }

  lemma WithoutMiddle(a: seq<Unit>, run: seq<Unit>, b: seq<Unit>, ids: set<nat>)
    requires forall i | 0 <= i < |a| :: a[i].id !in ids
    requires forall i | 0 <= i < |run| :: run[i].id in ids
    requires forall i | 0 <= i < |b| :: b[i].id !in ids
    ensures Without(a + run + b, ids) == a + b
  {
    hide Without;
    WithoutConcat(a + run, b, ids);
    WithoutConcat(a, run, ids);
    WithoutEnds(a, ids);
    WithoutEnds(run, ids);
    WithoutEnds(b, ids);
    Sequences.Neutral(a);
  }

  lemma RestSorted(units: seq<Unit>, start: nat, end: nat, id: nat)
    requires UnitsSorted(units) && start <= end <= |units| && Older(units, id)
    ensures UnitsSorted(units[..start] + units[end..]) && Older(units[..start] + units[end..], id)
  {
    RestRouted(units, start, end);
    RestDistinct(units, start, end);
    forall i | 0 <= i < |units[end..]| ensures units[end..][i].id < id { assert units[end..][i] == units[end + i]; }
  }

  lemma RestRouted(units: seq<Unit>, start: nat, end: nat)
    requires UnitsSorted(units) && start <= end <= |units|
    ensures var rest := units[..start] + units[end..]; forall i | 0 < i < |rest| :: Routed(rest[i - 1], rest[i])
  {
    var rest := units[..start] + units[end..];
    if 0 < start && end < |units| { RoutedApart(units, start - 1, end); }
    forall i | 0 < i < |rest| ensures Routed(rest[i - 1], rest[i]) {
      if i > start { assert Routed(units[i - start + end - 1], units[i - start + end]); }
    }
  }

  lemma RestDistinct(units: seq<Unit>, start: nat, end: nat)
    requires UnitsSorted(units) && start <= end <= |units|
    ensures var rest := units[..start] + units[end..]; forall i, j | 0 <= i < j < |rest| :: rest[i].id != rest[j].id
  {
    hide Routed;
    var rest := units[..start] + units[end..];
    forall i | 0 <= i < |rest| ensures rest[i] == units[if i < start then i else i - start + end] { }
  }

  lemma {:induction false} RoutedApart(units: seq<Unit>, i: nat, j: nat)
    requires UnitsSorted(units) && i < j < |units|
    ensures Routed(units[i], units[j])
    decreases j
  {
    if i < j - 1 { RoutedApart(units, i, j - 1); }
  }

  // ---------------------------------------------------------------- the new unit

  /** A new unit of merged sections; its range is exactly theirs. */
  method NewUnit(id: nat, sections: seq<Section>) returns (u: Unit)
    requires SectionsOk(sections) && sections != []
    ensures u.id == id && u.sections == sections && Exact(u)
  {
    hide SectionOk;
    var minTs, maxTs := sections[0].minTs, sections[0].maxTs;
    for i := 0 to |sections|
      invariant forall j | 0 <= j < i :: minTs <= sections[j].minTs && sections[j].maxTs <= maxTs
      invariant exists j :: 0 <= j < |sections| && sections[j].minTs == minTs
      invariant exists j :: 0 <= j < |sections| && sections[j].maxTs == maxTs
    {
      if sections[i].minTs < minTs { minTs := sections[i].minTs; }
      if sections[i].maxTs > maxTs { maxTs := sections[i].maxTs; }
    }
    return Unit(id, minTs, maxTs, sections);
  }

  lemma {:induction false} SectionInUnit(units: seq<Unit>, table: nat, s: Section)
    requires s in SectionsOf(units, table)
    ensures exists i :: 0 <= i < |units| && s in units[i].sections
    decreases |units|
  {
    if units != [] {
      var n := |units| - 1;
      TableSectionsOk(units[n].sections, table);
      if s in SectionsOf(units[..n], table) {
        SectionInUnit(units[..n], table, s);
        var i :| 0 <= i < n && s in units[..n][i].sections;
        assert s in units[i].sections;
      }
    }
  }

  lemma {:induction false} SectionOfUnit(units: seq<Unit>, i: nat, s: Section)
    requires i < |units| && s in units[i].sections
    ensures s in SectionsOf(units, s.table)
    decreases |units|
  {
    var n := |units| - 1;
    TableSectionsOk(units[n].sections, s.table);
    if i < n { SectionOfUnit(units[..n], i, s); }
  }

  // No row of the inputs is earlier than the first of them begins.
  lemma RowAfterStart(inputs: seq<Unit>, table: nat, x: I64)
    requires UnitsOk(inputs) && UnitsSorted(inputs) && SectionsOk(SectionsOf(inputs, table))
    requires x in AllRows(SectionsOf(inputs, table))
    ensures inputs != [] && inputs[0].minTs <= x
  {
    hide SectionOk, AllRows, SectionsOf;
    var ss := SectionsOf(inputs, table);
    RowOfSection(ss, x);
    var j :| 0 <= j < |ss| && ss[j].minTs <= x <= ss[j].maxTs;
    SectionInUnit(inputs, table, ss[j]);
    var i :| 0 <= i < |inputs| && ss[j] in inputs[i].sections;
    assert UnitOk(inputs[i]);
    SortedMins(inputs, 0, i);
  }

  /** The new unit begins where the first of its inputs did. */
  lemma SameBeginning(inputs: seq<Unit>, u: Unit)
    requires inputs != [] && UnitsOk(inputs) && UnitsSorted(inputs) && Exact(inputs[0]) && Exact(u)
    requires Replaces(inputs, u)
    ensures u.minTs == inputs[0].minTs
  {
    hide SectionOk, AllRows, AllVersions, SectionsOf, SealedFacts, SealedTags, Chain, Used;
    var i :| 0 <= i < |u.sections| && u.sections[i].minTs == u.minTs;
    SectionRow(u, i);
    RowAfterStart(inputs, u.sections[i].table, u.minTs);
    var j :| 0 <= j < |inputs[0].sections| && inputs[0].sections[j].minTs == inputs[0].minTs;
    var s := inputs[0].sections[j];
    SectionOfUnit(inputs, 0, s);
    EarliestKept(inputs, u, s);
  }

  lemma SectionRow(u: Unit, i: nat)
    requires UnitOk(u) && i < |u.sections|
    ensures SectionsOk(TableSections(u.sections, u.sections[i].table))
    ensures u.sections[i].minTs in AllRows(TableSections(u.sections, u.sections[i].table))
  {
    hide SectionOk, AllRows;
    var s := u.sections[i];
    TableSectionsOk(u.sections, s.table);
    var ss := TableSections(u.sections, s.table);
    forall x | 0 <= x < |ss| ensures SectionOk(ss[x]) { assert ss[x] in ss; }
    assert s in ss;
    var x :| 0 <= x < |ss| && ss[x] == s;
    EndIsRow(ss, x);
  }

  lemma EarliestKept(inputs: seq<Unit>, u: Unit, s: Section)
    requires UnitsOk(inputs) && UnitOk(u) && Replaces(inputs, u) && s in SectionsOf(inputs, s.table)
    ensures u.minTs <= s.minTs
  {
    hide SectionOk, AllRows, AllVersions, SectionsOf, SealedFacts, SealedTags, Chain, Used;
    var before, after := SectionsOf(inputs, s.table), TableSections(u.sections, s.table);
    var x :| 0 <= x < |before| && before[x] == s;
    EndIsRow(before, x);
    assert Rewritten(before, after, s.table);
    RowOfSection(after, s.minTs);
    var y :| 0 <= y < |after| && after[y].minTs <= s.minTs <= after[y].maxTs;
    TableSectionsOk(u.sections, s.table);
    assert after[y] in after;
  }

  // ------------------------------------------------------------------ compaction

  // The catalog shows the same facts of every key, and its tables can be read as before.
  ghost predicate SameFacts(before: seq<Unit>, after: seq<Unit>)
    requires UnitsOk(before) && UnitsOk(after)
  {
    forall t: Table, k: Key ::
      && AllFacts(after, t, k) == AllFacts(before, t, k)
      && (OrderedTable(before, k.table, t) <==> OrderedTable(after, k.table, t))
      && (Sane(before, k.table, t) <==> Sane(after, k.table, t))
  }

  // The sections of every table are of known versions and fitting types as before.
  ghost predicate SameSchema(before: seq<Unit>, after: seq<Unit>) {
    forall t: Table, table: nat ::
      && (AllKnown(t, SectionsOf(before, table)) <==> AllKnown(t, SectionsOf(after, table)))
      && (AllFit(t, SectionsOf(before, table)) ==> AllFit(t, SectionsOf(after, table)))
  }

  // What a compaction of a run leaves.
  ghost predicate Compacted(units: seq<Unit>, start: nat, end: nat, id: nat, limits: Limits, u: Unit, after: seq<Unit>)
    requires UnitsOk(units) && start < end <= |units|
  {
    && u.id == id && Exact(u) && UnitsOk(units[start..end]) && Replaces(units[start..end], u)
    && AllWithin(limits, u.sections) && Packed(limits, u.sections) && UnitOrder(u.sections)
    && after == Inserted(units[..start] + units[end..], u)
  }

  lemma {:induction false} InsertedSections(units: seq<Unit>, u: Unit, table: nat)
    ensures forall s ::
      s in SectionsOf(Inserted(units, u), table) <==>
        s in SectionsOf(units, table) || s in TableSections(u.sections, table)
    decreases |units|
  {
    hide TableSections;
    if units == [] || Routed(Last(units), u) {
      Sequences.Unsnoc(units, u);
    } else {
      var n := |units| - 1;
      InsertedSections(units[..n], u, table);
      Sequences.Unsnoc(Inserted(units[..n], u), units[n]);
    }
  }

  lemma RunSections(units: seq<Unit>, start: nat, end: nat, table: nat)
    requires start <= end <= |units|
    ensures forall s ::
      s in SectionsOf(units, table) <==>
      s in SectionsOf(units[..start] + units[end..], table) || s in SectionsOf(units[start..end], table)
  {
    hide SectionsOf;
    var a, run, b := units[..start], units[start..end], units[end..];
    assert units == a + run + b;
    SectionsConcat(a + run, b, table);
    SectionsConcat(a, run, table);
    SectionsConcat(a, b, table);
  }

  /**
   Compacting any run keeps the schema of every table: its sections are of known versions
   exactly when they were, and its columns still fit them.
   */
  lemma CompactedSchema(units: seq<Unit>, start: nat, end: nat, id: nat, limits: Limits, u: Unit, after: seq<Unit>,
                        table: nat, t: Table)
    requires UnitsOk(units) && start < end <= |units| && Compacted(units, start, end, id, limits, u, after)
    ensures AllKnown(t, SectionsOf(units, table)) <==> AllKnown(t, SectionsOf(after, table))
    ensures AllFit(t, SectionsOf(units, table)) ==> AllFit(t, SectionsOf(after, table))
  {
    hide UnitOk, SectionOk, Rewritten, SectionsOf, TableSections, VersionKnown, SectionFits, Inserted, Exact,
         AllWithin, Packed, UnitOrder;
    var run, rest := units[start..end], units[..start] + units[end..];
    ExactOk(u);
    assert UnitsOk(run) && Replaces(run, u);
    var former, renewed := SectionsOf(run, table), TableSections(u.sections, table);
    KnownKept(t, former, renewed, table);
    FitKept(t, former, renewed, table);
    RunSections(units, start, end, table);
    InsertedSections(rest, u, table);
    KnownMembers(t, SectionsOf(units, table), SectionsOf(rest, table), former);
    KnownMembers(t, SectionsOf(after, table), SectionsOf(rest, table), renewed);
  }

  lemma MergedReplaces(inputs: seq<Unit>, limits: Limits, tables: set<nat>, u: Unit)
    requires UnitsOk(inputs) && UnitOk(u) && Merging(inputs, limits, tables, u.sections)
    requires forall i | 0 <= i < |inputs| :: forall s | s in inputs[i].sections :: s.table in tables
    ensures Replaces(inputs, u)
  {
    hide UnitOk, SectionOk, Rewritten;
    forall table: nat
      ensures SectionsOk(SectionsOf(inputs, table)) && SectionsOk(TableSections(u.sections, table))
      ensures Rewritten(SectionsOf(inputs, table), TableSections(u.sections, table), table)
    {
      if table !in tables {
        SectionsOfOk(inputs, table);
        NoneOf(inputs, table);
        NothingRewritten(table);
      }
    }
  }

  lemma NothingRewritten(table: nat)
    ensures Rewritten([], [], table)
  {
  }

  lemma {:induction false} NoneOf(inputs: seq<Unit>, table: nat)
    requires forall i | 0 <= i < |inputs| :: forall s | s in inputs[i].sections :: s.table != table
    ensures SectionsOf(inputs, table) == []
    decreases |inputs|
  {
    if inputs != [] {
      NoneOf(inputs[..|inputs| - 1], table);
      NoneIn(Last(inputs).sections, table);
    }
  }

  lemma {:induction false} NoneIn(sections: seq<Section>, table: nat)
    requires forall s | s in sections :: s.table != table
    ensures TableSections(sections, table) == []
    decreases |sections|
  {
    if sections != [] {
      assert Last(sections) in sections;
      NoneIn(sections[..|sections| - 1], table);
    }
  }

  /** A run compacted where the unit after it begins later shows the same facts of every key. */
  lemma CompactedKeepsFacts(units: seq<Unit>, start: nat, end: nat, id: nat, limits: Limits, u: Unit, after: seq<Unit>)
    requires UnitsOk(units) && UnitsSorted(units) && AllExact(units) && Older(units, id) && start < end <= |units|
    requires Compacted(units, start, end, id, limits, u, after)
    ensures UnitsSorted(after) && UnitsOk(after)
    ensures after == units[..start] + [u] + units[end..] <==> end == |units| || units[start].minTs < units[end].minTs
    ensures end == |units| || units[start].minTs < units[end].minTs ==> SameFacts(units, after)
    ensures SameSchema(units, after)
  {
    hide Exact, UnitOk, Replaces, Merging, AllWithin, Packed, UnitOrder, SameSchema, SameFacts, UnitsSorted, Inserted;
    var a, run, b := units[..start], units[start..end], units[end..];
    RestSorted(units, start, end, id);
    ExactOk(u);
    InsertedSorted(a + b, u);
    InsertedOk(a + b, u);
    RunSorted(units, start, end);
    SameBeginning(run, u);
    if start > 0 { SortedMins(units, start - 1, start); }
    InsertedInPlace(a, b, u);
    SchemaKept(units, start, end, id, limits, u, after);
    if end == |units| || units[start].minTs < units[end].minTs { FactsKept(units, start, end, u, after); }
  }

  lemma SchemaKept(units: seq<Unit>, start: nat, end: nat, id: nat, limits: Limits, u: Unit, after: seq<Unit>)
    requires UnitsOk(units) && start < end <= |units| && Compacted(units, start, end, id, limits, u, after)
    ensures SameSchema(units, after)
  {
    hide UnitsOk, Compacted, SectionsOf, AllKnown, AllFit;
    forall t: Table, table: nat
      ensures AllKnown(t, SectionsOf(units, table)) <==> AllKnown(t, SectionsOf(after, table))
      ensures AllFit(t, SectionsOf(units, table)) ==> AllFit(t, SectionsOf(after, table))
    {
      CompactedSchema(units, start, end, id, limits, u, after, table, t);
    }
  }

  lemma FactsKept(units: seq<Unit>, start: nat, end: nat, u: Unit, after: seq<Unit>)
    requires UnitsOk(units) && UnitsOk(after) && start < end <= |units| && UnitOk(u)
    requires UnitsOk(units[start..end]) && Replaces(units[start..end], u) && SameSchema(units, after)
    requires after == units[..start] + [u] + units[end..]
    ensures SameFacts(units, after)
  {
    hide UnitOk, Replaces, AllFacts, OrderedTable, SectionsOf, AllKnown, AllFit;
    var a, run, b := units[..start], units[start..end], units[end..];
    assert units == a + run + b;
    forall t: Table, k: Key
      ensures AllFacts(after, t, k) == AllFacts(units, t, k)
      ensures OrderedTable(units, k.table, t) <==> OrderedTable(after, k.table, t)
    {
      ReplacedKeepsFacts(a, run, b, u, t, k);
    }
  }

  lemma RunSorted(units: seq<Unit>, start: nat, end: nat)
    requires UnitsSorted(units) && start <= end <= |units|
    ensures UnitsSorted(units[start..end])
  {
    var run := units[start..end];
    forall i | 0 <= i < |run| ensures run[i] == units[start + i] { }
  }

  lemma InsertedOk(units: seq<Unit>, u: Unit)
    requires UnitsOk(units) && Exact(u) && multiset(Inserted(units, u)) == multiset(units) + multiset{u}
    ensures UnitsOk(Inserted(units, u))
  {
    hide UnitOk, Inserted;
    var all := Inserted(units, u);
    assert UnitOk(u) by { ExactOk(u); }
    forall i | 0 <= i < |all| ensures UnitOk(all[i]) { assert all[i] in multiset(all); }
  }

  lemma ExactOk(u: Unit)
    requires Exact(u)
    ensures UnitOk(u)
  {
  }

  /** The first two or more neighbours of a level, all of them. */
  predicate Selected(levels: seq<nat>, level: nat, start: nat, end: nat) {
    && start + 2 <= end <= |levels| && (forall i | start <= i < end :: levels[i] == level)
    && (end < |levels| ==> levels[end] != level) && (start > 0 ==> levels[start - 1] != level)
    && forall i | 0 < i < start :: !Paired(levels, level, i)
  }

  // A unit and the one before it are of this level.
  predicate Paired(levels: seq<nat>, level: nat, i: nat)
    requires 0 < i < |levels|
  {
    levels[i - 1] == level && levels[i] == level
  }

  /** Chooses the run to compact by the levels of the units: the first one of two or more. */
  method SelectRun(levels: seq<nat>, level: nat) returns (r: Option<(nat, nat)>)
    ensures r.Some? ==> Selected(levels, level, r.value.0, r.value.1)
    ensures r.None? ==> forall i | 0 < i < |levels| :: !Paired(levels, level, i)
  {
    var start := 0;
    while start < |levels|
      invariant start <= |levels| && forall i | 0 < i < |levels| && i <= start :: !Paired(levels, level, i)
      invariant 0 < start < |levels| ==> levels[start - 1] != level || levels[start] != level
    {
      if levels[start] != level {
        start := start + 1;
        continue;
      }
      var end := start + 1;
      while end < |levels| && levels[end] == level
        invariant start < end <= |levels| && forall i | start <= i < end :: levels[i] == level
      {
        end := end + 1;
      }
      if end - start >= 2 { return Some((start, end)); }
      start := end;
    }
    return None;
  }

  /** There is only one such run. */
  lemma SelectedIsUnique(levels: seq<nat>, level: nat, a: nat, b: nat, c: nat, d: nat)
    requires Selected(levels, level, a, b) && Selected(levels, level, c, d)
    ensures a == c && b == d
  {
    assert Paired(levels, level, a + 1) && Paired(levels, level, c + 1);
  }

  /**
   Compacts a run of the catalog into one unit; that fails only for an empty or unknown run, a
   table that cannot be merged, or a section of no table.
   */
  method Compact(units: seq<Unit>, start: nat, end: nat, id: nat, tables: map<nat, Table>, limits: Limits)
    returns (r: Result<seq<Unit>>)
    requires UnitsOk(units) && UnitsSorted(units) && AllExact(units) && Older(units, id)
    ensures r.Ok? ==> start < end <= |units| && exists u :: Compacted(units, start, end, id, limits, u, r.value)
    ensures r.Ok? ==> UnitsSorted(r.value) && UnitsOk(r.value) && SameSchema(units, r.value)
    ensures r.Ok? ==> KnownTables(units[start..end], tables, tables.Keys)
    ensures r.Ok? && (end == |units| || units[start].minTs < units[end].minTs) ==> SameFacts(units, r.value)
    ensures r.Err? ==> start >= end || end > |units| || !MergeableUnits(units[start..end], tables, limits)
  {
    hide Exact, UnitOk, Replaces, AllWithin, Packed, UnitOrder, SameFacts, SameSchema, Rewritten, WrittenTables,
         Mergeable, KnownTables, SectionsOf, UnitsSorted, AllKnown;
    if start >= end || end > |units| { return Err(Corruption); }
    var inputs := units[start..end];
    assert UnitsOk(inputs);
    var merged := Merge(inputs, tables, limits);
    if merged.Err? { return Err(merged.error); }
    var sections := merged.value;
    SomethingMerged(inputs, limits, tables.Keys, sections);
    if sections == [] { return Err(Invalid); }
    var u := NewUnit(id, sections);
    ExactOk(u);
    MergedReplaces(inputs, limits, tables.Keys, u);
    var ids := set i | start <= i < end :: units[i].id;
    WithoutRun(units, start, end, ids);
    var after := Inserted(Without(units, ids), u);
    assert Compacted(units, start, end, id, limits, u, after);
    CompactedKeepsFacts(units, start, end, id, limits, u, after);
    return Ok(after);
  }

  // Units with a section leave a section.
  lemma SomethingMerged(inputs: seq<Unit>, limits: Limits, tables: set<nat>, sections: seq<Section>)
    requires inputs != [] && UnitsOk(inputs) && Exact(inputs[0]) && Merging(inputs, limits, tables, sections)
    requires forall i | 0 <= i < |inputs| :: forall s | s in inputs[i].sections :: s.table in tables
    ensures sections != []
  {
    hide SectionOk, SealedFacts, SealedTags, AllVersions, Used, Chain, AllWithin, Packed, UnitOrder;
    var s := inputs[0].sections[0];
    assert s in inputs[0].sections;
    SectionOfUnit(inputs, 0, s);
    var before := SectionsOf(inputs, s.table);
    assert SectionsOk(before) && before != [];
    assert Rewritten(before, TableSections(sections, s.table), s.table);
    NoRows(before);
    NoRows(TableSections(sections, s.table));
  }
}
