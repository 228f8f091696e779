/**
 Retention: the oldest units are folded into one head per key, and only what could still
 be seen at the new floor is kept. At and above the floor no lookup changes.
 */
module Retention {
  import opened Prelude
  import opened Cells
  import opened Catalog
  import opened Lookups
  import opened Ranges
  import opened Totals
  import opened Visibility
  import Sequences

  const MAX_RETENTION_HEADS: nat := 262_144

  datatype Heads = Heads(floor: I64, entries: map<Key, Fact>)

  // Heads lie below the floor they were made for.
  predicate HeadsOk(h: Heads) { forall k | k in h.entries :: h.entries[k].ts < h.floor }

  function Get(latest: map<Key, Fact>, k: Key): Option<Fact> { if k in latest then Some(latest[k]) else None }

  function LatestOf(fs: seq<Fact>, prior: Option<Fact>): Option<Fact> { if fs == [] then prior else Some(Last(fs)) }

  lemma LatestConcat(a: seq<Fact>, b: seq<Fact>, prior: Option<Fact>)
    ensures LatestOf(b, LatestOf(a, prior)) == LatestOf(a + b, prior)
  {
    if b == [] { Sequences.Neutral(a); }
  }

  // ------------------------------------------------------------ one section

  // The facts of a key in the rows before `r`, and in row `r` for the columns before `c`.
  function RowFacts(s: Section, k: Key, r: nat, c: nat): seq<Fact>
    requires ColumnsOk(s.columns, |s.timestamps|) && r <= |s.timestamps| && c <= |s.columns|
    requires (c > 0 ==> r < |s.timestamps|)
  {
    ColumnOfSize(s.columns, |s.timestamps|, k.series, k.field);
    match ColumnOf(s.columns, k.series, k.field)
    case None => []
    case Some(column) =>
      var n := if ColumnOf(s.columns[..c], k.series, k.field).Some? then r + 1 else r;
      assert c == 0 ==> s.columns[..c] == [];
      Picked(s.timestamps[..n], column.cells[..n])
  }

  lemma {:induction false} ColumnWithin(columns: seq<Column>, c: nat, series: nat, field: nat)
    requires c <= |columns| && ColumnOf(columns[..c], series, field).Some?
    ensures ColumnOf(columns, series, field).Some?
    decreases |columns|
  {
    if c < |columns| {
      Sequences.Take(columns, c, |columns| - 1);
      ColumnWithin(columns[..|columns| - 1], c, series, field);
    } else {
      Sequences.Neutral(columns);
    }
  }

  // One more cell of one row.
  lemma CellNext(s: Section, k: Key, r: nat, c: nat)
    requires ColumnsOk(s.columns, |s.timestamps|) && r < |s.timestamps| && c < |s.columns|
    ensures var column := s.columns[c];
      RowFacts(s, k, r, c + 1) ==
      if column.series == k.series && column.field == k.field && column.cells[r].Some?
      then RowFacts(s, k, r, c) + [Fact(s.timestamps[r], column.cells[r].value)]
      else RowFacts(s, k, r, c)
  {
    hide ColumnOf;
    var column := s.columns[c];
    ColumnNext(s.columns, c, k.series, k.field);
    if column.series == k.series && column.field == k.field {
      ColumnFound(s.columns, c, |s.timestamps|);
      ColumnAbsent(s.columns, c, |s.timestamps|);
      Sequences.Take(s.timestamps, r, r + 1);
      Sequences.Take(column.cells, r, r + 1);
      var before := Picked(s.timestamps[..r], column.cells[..r]);
      Sequences.Neutral(before);
    }
  }

  // A finished row.
  lemma RowNext(s: Section, k: Key, r: nat)
    requires ColumnsOk(s.columns, |s.timestamps|) && r < |s.timestamps|
    ensures RowFacts(s, k, r, |s.columns|) == RowFacts(s, k, r + 1, 0)
  {
    Sequences.Neutral(s.columns);
  }

  lemma RowsDone(s: Section, k: Key)
    requires SectionOk(s)
    ensures RowFacts(s, k, |s.timestamps|, 0) == SectionFacts(s, k) && RowFacts(s, k, 0, 0) == []
  {
    ColumnOfSize(s.columns, |s.timestamps|, k.series, k.field);
    var column := ColumnOf(s.columns, k.series, k.field);
    Sequences.Neutral(s.timestamps);
    if column.Some? { Sequences.Neutral(column.value.cells); }
  }

  // The heads after part of a section.
  ghost predicate Applying(s: Section, table: nat, before: map<Key, Fact>, after: map<Key, Fact>, r: nat, c: nat)
    requires ColumnsOk(s.columns, |s.timestamps|) && r <= |s.timestamps| && c <= |s.columns|
    requires (c > 0 ==> r < |s.timestamps|)
  {
    forall k: Key :: Get(after, k) == if k.table == table then LatestOf(RowFacts(s, k, r, c), Get(before, k))
    else Get(before, k)
  }

  // A head comes before all of these facts.
  predicate Older(head: Option<Fact>, fs: seq<Fact>) { head.Some? ==> forall f | f in fs :: head.value.ts < f.ts }

  lemma {:induction false} PickedAt(timestamps: seq<I64>, cells: seq<Option<Cell>>, r: nat)
    requires |timestamps| == |cells| && r < |cells| && cells[r].Some?
    ensures Fact(timestamps[r], cells[r].value) in Picked(timestamps, cells)
    decreases |cells|
  {
    if r < |cells| - 1 { PickedAt(timestamps[..|cells| - 1], cells[..|cells| - 1], r); }
  }

  lemma LastIn(fs: seq<Fact>)
    ensures fs == [] || Last(fs) in fs
  {
  }

  // Only a head from before the section can be as new as one of its facts.
  lemma ApplyFails(s: Section, table: nat, before: map<Key, Fact>, after: map<Key, Fact>, r: nat, c: nat)
    requires SectionOk(s) && r < |s.timestamps| && c < |s.columns| && Applying(s, table, before, after, r, c)
    requires s.columns[c].cells[r].Some?
    requires var k := Key(table, s.columns[c].series, s.columns[c].field);
             k in after && after[k].ts >= s.timestamps[r]
    ensures exists k: Key :: k.table == table && !Older(Get(before, k), SectionFacts(s, k))
  {
    hide ColumnOf;
    var column := s.columns[c];
    var k := Key(table, column.series, column.field);
    ColumnFound(s.columns, c, |s.timestamps|);
    ColumnAbsent(s.columns, c, |s.timestamps|);
    PickedWithin(s.timestamps[..r], column.cells[..r]);
    PickedAt(s.timestamps, column.cells, r);
    assert RowFacts(s, k, r, c) == Picked(s.timestamps[..r], column.cells[..r]);
    hide Picked;
    assert !Older(Get(before, k), SectionFacts(s, k)) by {
      assert Get(after, k) == LatestOf(RowFacts(s, k, r, c), Get(before, k));
      LastIn(RowFacts(s, k, r, c));
    }
  }

  /** Applies a section row by row; every fact must be newer than the head it replaces. */
  method ApplySection(table: nat, s: Section, latest: map<Key, Fact>) returns (r: Result<map<Key, Fact>>)
    requires SectionOk(s)
    ensures r.Ok? ==> forall k: Key ::
      Get(r.value, k) == if k.table == table then LatestOf(SectionFacts(s, k), Get(latest, k)) else Get(latest, k)
    ensures r.Err? ==> exists k: Key :: k.table == table && !Older(Get(latest, k), SectionFacts(s, k))
  {
    hide RowFacts, ColumnOf;
    var after := latest;
    forall k: Key ensures RowFacts(s, k, 0, 0) == [] { RowsDone(s, k); }
    for row := 0 to |s.timestamps|
      invariant Applying(s, table, latest, after, row, 0)
    {
      for c := 0 to |s.columns|
        invariant Applying(s, table, latest, after, row, c)
      {
        var column := s.columns[c];
        forall k: Key
          ensures RowFacts(s, k, row, c + 1) ==
            if column.series == k.series && column.field == k.field && column.cells[row].Some?
            then RowFacts(s, k, row, c) + [Fact(s.timestamps[row], column.cells[row].value)]
            else RowFacts(s, k, row, c)
        {
          CellNext(s, k, row, c);
        }
        if column.cells[row].Some? {
          var key := Key(table, column.series, column.field);
          if key in after && after[key].ts >= s.timestamps[row] {
            ApplyFails(s, table, latest, after, row, c);
            return Err(Corruption);
          }
          after := after[key := Fact(s.timestamps[row], column.cells[row].value)];
        }
      }
      forall k: Key ensures RowFacts(s, k, row, |s.columns|) == RowFacts(s, k, row + 1, 0) { RowNext(s, k, row); }
    }
    forall k: Key ensures RowFacts(s, k, |s.timestamps|, 0) == SectionFacts(s, k) { RowsDone(s, k); }
    return Ok(after);
  }

  // ------------------------------------------------------------ all sections

  // The heads once the sections seen so far of one table are applied.
  ghost predicate Applied(table: nat, seen: seq<Section>, before: map<Key, Fact>, after: map<Key, Fact>)
    requires SectionsOk(seen)
  {
    forall k: Key :: Get(after, k) == if k.table == table then LatestOf(SealedFacts(seen, k), Get(before, k))
    else Get(before, k)
  }

  lemma AppliedMore(table: nat, seen: seq<Section>, s: Section, before: map<Key, Fact>, middle: map<Key, Fact>,
                    after: map<Key, Fact>)
    requires SectionsOk(seen) && SectionOk(s) && Applied(table, seen, before, middle)
    requires forall k: Key :: Get(after, k) == if k.table == table then LatestOf(SectionFacts(s, k), Get(middle, k))
    else Get(middle, k)
    ensures SectionsOk(seen + [s]) && Applied(table, seen + [s], before, after)
  {
    hide SectionOk, SectionFacts, SealedFacts, LatestOf;
    assert SectionsOk(seen + [s]);
    forall k: Key | k.table == table ensures Get(after, k) == LatestOf(SealedFacts(seen + [s], k), Get(before, k)) {
      SealedOne(s, k);
      SealedConcat(seen, [s], k);
      LatestConcat(SealedFacts(seen, k), SectionFacts(s, k), Get(before, k));
    }
  }

  // What folding the sections of a table relies on: order, known versions, and older heads.
  ghost predicate Foldable(table: nat, t: Table, ss: seq<Section>, latest: map<Key, Fact>)
    requires SectionsOk(ss)
  {
    Chain(ss) && AllKnown(t, ss) && forall k: Key | k.table == table :: Older(Get(latest, k), SealedFacts(ss, k))
  }

  // What can be folded can be folded up to any section.
  lemma FoldablePart(table: nat, t: Table, a: seq<Section>, b: seq<Section>, latest: map<Key, Fact>)
    requires SectionsOk(a) && SectionsOk(b) && SectionsOk(a + b) && Foldable(table, t, a + b, latest)
    ensures Foldable(table, t, a, latest)
  {
    hide SectionOk, SealedFacts, VersionKnown, Get;
    forall i | 0 <= i < |a| ensures (a + b)[i] == a[i] { }
    forall k: Key | k.table == table ensures Older(Get(latest, k), SealedFacts(a, k)) { SealedConcat(a, b, k); }
  }

  lemma FoldableUnits(expired: seq<Unit>, i: nat, table: nat, t: Table, latest: map<Key, Fact>)
    requires UnitsOk(expired) && i <= |expired| && SectionsOk(SectionsOf(expired, table))
    requires SectionsOk(SectionsOf(expired[..i], table)) && Foldable(table, t, SectionsOf(expired, table), latest)
    ensures Foldable(table, t, SectionsOf(expired[..i], table), latest)
  {
    hide UnitOk, SectionOk, Foldable;
    Sequences.Cut(expired, i);
    SectionsConcat(expired[..i], expired[i..], table);
    SectionsOfOk(expired[i..], table);
    FoldablePart(table, t, SectionsOf(expired[..i], table), SectionsOf(expired[i..], table), latest);
  }

  // The next section may follow those before it and the heads that they left.
  lemma FoldableNext(table: nat, t: Table, seen: seq<Section>, s: Section, before: map<Key, Fact>,
                     middle: map<Key, Fact>)
    requires SectionsOk(seen) && SectionOk(s) && SectionsOk(seen + [s])
    requires Applied(table, seen, before, middle) && Foldable(table, t, seen + [s], before)
    ensures VersionKnown(t, s) && (seen != [] ==> Last(seen).maxTs < s.minTs)
    ensures forall k: Key | k.table == table :: Older(Get(middle, k), SectionFacts(s, k))
  {
    hide SectionOk, SectionFacts, SealedFacts, VersionKnown, Get;
    var all := seen + [s];
    assert all[|seen|] == s && (seen != [] ==> all[|seen| - 1] == Last(seen));
    forall i, j | 0 <= i < j < |seen| ensures seen[i].maxTs < seen[j].minTs {
      assert all[i] == seen[i] && all[j] == seen[j];
    }
    forall k: Key | k.table == table ensures Older(Get(middle, k), SectionFacts(s, k)) {
      SealedOne(s, k);
      SealedConcat(seen, [s], k);
      SealedAscending(seen, k);
      SectionWithin(s, k);
      var fs := SealedFacts(seen, k);
      LastIn(fs);
    }
  }

  /** Folds the sections of one table, oldest first; they must be in order and of known versions. */
  method FoldTable(expired: seq<Unit>, table: nat, t: Table, latest: map<Key, Fact>) returns (r: Result<map<Key, Fact>>)
    requires UnitsOk(expired)
    ensures SectionsOk(SectionsOf(expired, table))
    ensures r.Ok? ==> Applied(table, SectionsOf(expired, table), latest, r.value)
    ensures Foldable(table, t, SectionsOf(expired, table), latest) ==> r.Ok?
  {
    hide UnitOk, SectionOk, Applied, VersionKnown, Get, Foldable;
    SectionsOfOk(expired, table);
    var after, previousMax: Option<I64> := latest, None;
    NothingApplied(table, latest);
    for i := 0 to |expired|
      invariant SectionsOk(SectionsOf(expired[..i], table)) && Applied(table, SectionsOf(expired[..i], table), latest,
                                                                       after)
      invariant Trails(previousMax, SectionsOf(expired[..i], table))
    {
      var sections := TableSections(expired[i].sections, table);
      ghost var seen := SectionsOf(expired[..i], table);
      UnitLast(expired, i, table);
      SectionsOfOk(expired[..i + 1], table);
      SectionsParts(seen, sections);
      Sequences.Neutral(seen);
      for j := 0 to |sections|
        invariant SectionsOk(seen + sections[..j]) && Applied(table, seen + sections[..j], latest, after)
        invariant Trails(previousMax, seen + sections[..j])
      {
        var s := sections[j];
        FoldableUpTo(expired, i, j, table, t, latest, after);
        if previousMax.Some? && previousMax.value >= s.minTs { return Err(Corruption); }
        if !VersionKnown(t, s) { return Err(Corruption); }
        ghost var middle := after;
        after :- ApplySection(table, s, after);
        Sequences.Around(sections, j);
        Sequences.Associative(seen, sections[..j], [s]);
        AppliedMore(table, seen + sections[..j], s, latest, middle, after);
        previousMax := Some(s.maxTs);
      }
      Sequences.Neutral(sections);
    }
    Sequences.Neutral(expired);
    return Ok(after);
  }

  // The end of the last section seen.
  predicate Trails(previousMax: Option<I64>, seen: seq<Section>) {
    if seen == [] then previousMax.None? else previousMax == Some(Last(seen).maxTs)
  }

  // The sections up to the j-th one of a unit.
  lemma FoldablePrefix(expired: seq<Unit>, i: nat, j: nat, table: nat, t: Table, latest: map<Key, Fact>)
    requires UnitsOk(expired) && i < |expired| && j < |TableSections(expired[i].sections, table)|
    requires SectionsOk(SectionsOf(expired, table)) && Foldable(table, t, SectionsOf(expired, table), latest)
    ensures var sections := TableSections(expired[i].sections, table);
            var up := SectionsOf(expired[..i], table) + sections[..j] + [sections[j]];
            SectionsOk(up) && Foldable(table, t, up, latest)
  {
    hide UnitOk, SectionOk, Foldable, SectionsOf, TableSections;
    var older, sections := SectionsOf(expired[..i], table), TableSections(expired[i].sections, table);
    var up := older + sections[..j] + [sections[j]];
    UnitLast(expired, i, table);
    SectionsOfOk(expired[..i + 1], table);
    FoldableUnits(expired, i + 1, table, t, latest);
    Sequences.Around(sections, j);
    assert older + sections == up + sections[j + 1..];
    SectionsParts(up, sections[j + 1..]);
    FoldablePart(table, t, up, sections[j + 1..], latest);
  }

  lemma FoldableUpTo(expired: seq<Unit>, i: nat, j: nat, table: nat, t: Table, before: map<Key, Fact>,
                     middle: map<Key, Fact>)
    requires UnitsOk(expired) && i < |expired| && j < |TableSections(expired[i].sections, table)|
    requires var seen := SectionsOf(expired[..i], table) + TableSections(expired[i].sections, table)[..j];
             SectionsOk(seen) && Applied(table, seen, before, middle)
    ensures SectionsOk(SectionsOf(expired, table))
    ensures Foldable(table, t, SectionsOf(expired, table), before) ==>
      var seen := SectionsOf(expired[..i], table) + TableSections(expired[i].sections, table)[..j];
      var s := TableSections(expired[i].sections, table)[j];
      && SectionOk(s) && VersionKnown(t, s) && (seen != [] ==> Last(seen).maxTs < s.minTs)
      && forall k: Key | k.table == table :: Older(Get(middle, k), SectionFacts(s, k))
  {
    hide UnitOk, SectionOk, Applied, VersionKnown, Get, Foldable, Older, SectionFacts, SectionsOf, TableSections;
    SectionsOfOk(expired, table);
    if Foldable(table, t, SectionsOf(expired, table), before) {
      var sections := TableSections(expired[i].sections, table);
      var seen, s := SectionsOf(expired[..i], table) + sections[..j], sections[j];
      FoldablePrefix(expired, i, j, table, t, before);
      assert SectionOk(s) by { assert (seen + [s])[|seen|] == s; }
      FoldableNext(table, t, seen, s, before, middle);
    }
  }

  lemma NothingApplied(table: nat, latest: map<Key, Fact>)
    ensures Applied(table, [], latest, latest) && forall expired: seq<Unit> | expired == [] ::
      SectionsOf(expired, table) == []
  {
  }

  // ---------------------------------------------------------------- the fold

  // The last fact of a key in the expired units, or its older head.
  ghost function Folded(expired: seq<Unit>, tables: map<nat, Table>, prior: map<Key, Fact>, k: Key): Option<Fact>
    requires UnitsOk(expired)
  {
    SectionsOfOk(expired, k.table);
    if k.table in tables then LatestOf(SealedFacts(SectionsOf(expired, k.table), k), Get(prior, k)) else Get(prior, k)
  }

  /** What the new heads are: of every key, its last expired fact if that can still be seen at the floor. */
  ghost predicate HeadsFor(expired: seq<Unit>, tables: map<nat, Table>, prior: map<Key, Fact>, floor: I64,
                           heads: map<Key, Fact>)
    requires UnitsOk(expired)
  {
    forall k: Key ::
      match Folded(expired, tables, prior, k)
      case None => k !in heads
      case Some(f) =>
        if k.table !in tables then
          k !in heads
        else
          && Visible(tables[k.table], k, f, floor).Ok?
          && Get(heads, k) == if Visible(tables[k.table], k, f, floor).value then Some(f) else None
  }

  predicate MayExpire(prior: Option<Heads>, expired: seq<Unit>, floor: I64) {
    && expired != [] && (prior.Some? ==> prior.value.floor < floor)
    && (forall i | 0 <= i < |expired| :: expired[i].maxTs < floor)
    && (forall i | 0 < i < |expired| :: Routed(expired[i - 1], expired[i]))
  }

  function Entries(prior: Option<Heads>): map<Key, Fact> { if prior.Some? then prior.value.entries else map[] }

  // All tables folded so far.
  ghost predicate FoldedTables(expired: seq<Unit>, done: set<nat>, prior: map<Key, Fact>, latest: map<Key, Fact>)
    requires UnitsOk(expired)
  {
    forall k: Key :: SectionsOk(SectionsOf(expired, k.table)) &&
      Get(latest, k) == if k.table in done then LatestOf(SealedFacts(SectionsOf(expired, k.table), k), Get(prior, k))
      else Get(prior, k)
  }

  lemma TableFolded(expired: seq<Unit>, done: set<nat>, table: nat, prior: map<Key, Fact>, middle: map<Key, Fact>,
                    latest: map<Key, Fact>)
    requires UnitsOk(expired) && FoldedTables(expired, done, prior, middle) && table !in done
    requires SectionsOk(SectionsOf(expired, table)) && Applied(table, SectionsOf(expired, table), middle, latest)
    ensures FoldedTables(expired, done + {table}, prior, latest)
  {
    hide UnitOk, SectionOk, LatestOf, SealedFacts, Get, SectionsOf;
    forall k: Key
      ensures SectionsOk(SectionsOf(expired, k.table))
      ensures Get(latest, k) == if k.table in done + {table}
      then LatestOf(SealedFacts(SectionsOf(expired, k.table), k), Get(prior, k)) else Get(prior, k)
    {
      SectionsOfOk(expired, k.table);
    }
  }

  lemma NoTableFolded(expired: seq<Unit>, prior: map<Key, Fact>)
    requires UnitsOk(expired)
    ensures FoldedTables(expired, {}, prior, prior)
  {
    hide UnitOk, SectionOk;
    forall k: Key ensures SectionsOk(SectionsOf(expired, k.table)) { SectionsOfOk(expired, k.table); }
  }

  // Whether a head may be judged at a floor: its field is known, and it has that field's type.
  predicate Keepable(t: Table, k: Key, f: Fact, floor: int) { Visible(t, k, f, floor).Ok? && TypeOk(t, k, f) }

  /** A head may be judged exactly when the version that governs it knows the field, and it has that field's type. */
  lemma KeepableIff(t: Table, k: Key, f: Fact, floor: int)
    requires InOrder(t.versions)
    ensures Keepable(t, k, f, floor) <==> exists i: nat ::
      Governs(t.versions, i, f.ts) && k.field in t.versions[i].fields && Matches(t.versions[i].fields[k.field], f.value)
  {
    hide Resolve, InOrder;
    VisibleIff(t, k, f, floor);
    match Resolve(t.versions, k.field, f.ts)
    case Err(_) => ResolveIff(t.versions, k.field, f.ts, Contract(UIntType, Forever));
    case Ok(c) =>
      ResolveIff(t.versions, k.field, f.ts, c);
      forall i: nat, j: nat | Governs(t.versions, i, f.ts) && Governs(t.versions, j, f.ts) ensures i == j {
        OneGoverns(t.versions, i, j, f.ts);
      }
  }

  /** What folding relies on: an ordered prefix of sane tables, older heads, and known fields and types. */
  ghost predicate Expirable(prior: Option<Heads>, expired: seq<Unit>, tables: map<nat, Table>, floor: I64)
    requires UnitsOk(expired)
  {
    && MayExpire(prior, expired, floor) && (prior.Some? ==> HeadsOk(prior.value))
    && (forall t | t in tables ::
          && SectionsOk(SectionsOf(expired, t))
          && Foldable(t, tables[t], SectionsOf(expired, t), Entries(prior)))
    && (forall i | 0 <= i < |expired| :: forall s | s in expired[i].sections :: s.table in tables)
    && (forall k: Key | k.table in tables && Folded(expired, tables, Entries(prior), k).Some? ::
          Keepable(tables[k.table], k, Folded(expired, tables, Entries(prior), k).value, floor))
  }

  lemma TableFoldable(prior: Option<Heads>, expired: seq<Unit>, tables: map<nat, Table>, floor: I64, done: set<nat>,
                      table: nat, latest: map<Key, Fact>)
    requires UnitsOk(expired) && FoldedTables(expired, done, Entries(prior), latest) && table in tables
    requires table !in done && Expirable(prior, expired, tables, floor)
    ensures SectionsOk(SectionsOf(expired, table))
    ensures Foldable(table, tables[table], SectionsOf(expired, table), latest)
  {
    hide UnitOk, SectionOk, MayExpire, Keepable, Get, Folded, LatestOf, Chain, VersionKnown, Older;
  }

  // With all tables folded, every head can be judged and lies below the floor.
  lemma AllKeepable(prior: Option<Heads>, expired: seq<Unit>, tables: map<nat, Table>, floor: I64,
                    latest: map<Key, Fact>)
    requires UnitsOk(expired) && FoldedTables(expired, tables.Keys, Entries(prior), latest)
    requires Expirable(prior, expired, tables, floor)
    ensures forall k | k in latest && k.table in tables :: Keepable(tables[k.table], k, latest[k], floor)
    ensures forall k | k in latest && k.table in tables :: latest[k].ts < floor
  {
    hide UnitOk, SectionOk, Keepable, Foldable, SectionsOf, SealedFacts, Routed;
    forall k | k in latest && k.table in tables
      ensures Keepable(tables[k.table], k, latest[k], floor) && latest[k].ts < floor
    {
      assert Folded(expired, tables, Entries(prior), k) == Get(latest, k);
      ExpiredOld(expired, k, floor);
      LastIn(SealedFacts(SectionsOf(expired, k.table), k));
    }
  }

  /** Folds expired units into heads at a new floor; it fails only for what it relies on, or for too many heads. */
  method Fold(prior: Option<Heads>, expired: seq<Unit>, tables: map<nat, Table>, floor: I64) returns (r: Result<Heads>)
    requires UnitsOk(expired)
    ensures r.Ok? ==> MayExpire(prior, expired, floor) && r.value.floor == floor && HeadsOk(r.value)
    ensures r.Ok? ==> HeadsFor(expired, tables, Entries(prior), floor, r.value.entries)
    ensures r.Ok? ==> forall i | 0 <= i < |expired| :: forall s | s in expired[i].sections :: s.table in tables
    ensures r.Err? && Expirable(prior, expired, tables, floor) ==>
      exists heads :: HeadsFor(expired, tables, Entries(prior), floor, heads) && |heads| > 262_144
  {
    hide UnitOk, FoldedTables, Routed, Visible, Folded, HeadsFor, CountsOf, MayExpire, Keepable, Foldable, Expirable;
    ExpirableParts(prior, expired, tables, floor);
    if !MayExpire(prior, expired, floor) { return Err(Invalid); }
    var latest := Entries(prior);
    var todo := tables.Keys;
    var counts := NoCounts(expired);
    NoTableFolded(expired, latest);
    assert tables.Keys - todo == {};
    while todo != {}
      invariant todo <= tables.Keys && FoldedTables(expired, tables.Keys - todo, Entries(prior), latest)
      invariant CountsOf(expired, tables.Keys - todo, counts)
      decreases |todo|
    {
      var table :| table in todo;
      ghost var middle := latest;
      counts := CountTable(expired, table, counts, tables.Keys - todo);
      if Expirable(prior, expired, tables, floor) {
        TableFoldable(prior, expired, tables, floor, tables.Keys - todo, table, latest);
      }
      latest :- FoldTable(expired, table, tables[table], latest);
      TableFolded(expired, tables.Keys - todo, table, Entries(prior), middle, latest);
      assert tables.Keys - (todo - {table}) == (tables.Keys - todo) + {table};
      todo := todo - {table};
    }
    assert tables.Keys - todo == tables.Keys;
    var all := AllCounted(expired, counts, tables.Keys);
    if !all { return Err(Corruption); }
    if Expirable(prior, expired, tables, floor) { AllKeepable(prior, expired, tables, floor, latest); }
    var entries :- KeepVisible(latest, tables, floor);
    AllFolded(expired, tables, Entries(prior), latest, floor, entries);
    r := NewHeads(floor, entries);
  }

  lemma ExpirableParts(prior: Option<Heads>, expired: seq<Unit>, tables: map<nat, Table>, floor: I64)
    requires UnitsOk(expired)
    ensures Expirable(prior, expired, tables, floor) ==>
      && MayExpire(prior, expired, floor)
      && forall i | 0 <= i < |expired| :: forall s | s in expired[i].sections :: s.table in tables
  {
    hide UnitOk, SectionOk, MayExpire, Keepable, Foldable, Folded, SectionsOf;
  }

  // Drops the heads that no table has or that cannot be seen at the floor.
  method KeepVisible(latest: map<Key, Fact>, tables: map<nat, Table>, floor: I64) returns (r: Result<map<Key, Fact>>)
    ensures r.Ok? ==> forall k: Key :: if k !in latest || k.table !in tables then k !in r.value else
      Visible(tables[k.table], k, latest[k], floor).Ok?
      && Get(r.value, k) == if Visible(tables[k.table], k, latest[k], floor).value then Some(latest[k]) else None
    ensures r.Ok? <==> forall k | k in latest && k.table in tables :: Keepable(tables[k.table], k, latest[k], floor)
  {
    hide Visible, TypeOk;
    var entries: map<Key, Fact> := map[];
    var todo := latest.Keys;
    while todo != {}
      invariant todo <= latest.Keys && entries.Keys <= latest.Keys - todo
      invariant forall k: Key | k in latest.Keys - todo :: if k.table !in tables then k !in entries else
        Visible(tables[k.table], k, latest[k], floor).Ok?
        && Get(entries, k) == if Visible(tables[k.table], k, latest[k], floor).value then Some(latest[k]) else None
      invariant forall k: Key | k in latest.Keys - todo && k.table in tables ::
        Keepable(tables[k.table], k, latest[k], floor)
      decreases |todo|
    {
      var k :| k in todo;
      todo := todo - {k};
      if k.table in tables {
        var t := tables[k.table];
        var visible :- Visible(t, k, latest[k], floor);
        if !TypeOk(t, k, latest[k]) { return Err(Corruption); }
        if visible { entries := entries[k := latest[k]]; }
      }
    }
    return Ok(entries);
  }

  // Whether a fact has the type of the version it was written under.
  predicate TypeOk(t: Table, k: Key, f: Fact) {
    Resolve(t.versions, k.field, f.ts).Ok? ==> Matches(Resolve(t.versions, k.field, f.ts).value.kind, f.value)
  }

  method NewHeads(floor: I64, entries: map<Key, Fact>) returns (r: Result<Heads>)
    ensures r.Ok? ==> r.value == Heads(floor, entries)
    ensures r.Ok? <==> |entries| <= 262_144 && HeadsOk(Heads(floor, entries))
  {
    if |entries| > MAX_RETENTION_HEADS { return Err(Limit); }
    if exists k | k in entries :: entries[k].ts >= floor { return Err(Invalid); }
    return Ok(Heads(floor, entries));
  }

  lemma AllFolded(expired: seq<Unit>, tables: map<nat, Table>, prior: map<Key, Fact>, latest: map<Key, Fact>,
                  floor: I64, heads: map<Key, Fact>)
    requires UnitsOk(expired) && FoldedTables(expired, tables.Keys, prior, latest)
    requires forall k: Key :: if k !in latest || k.table !in tables then k !in heads else
      Visible(tables[k.table], k, latest[k], floor).Ok?
      && Get(heads, k) == if Visible(tables[k.table], k, latest[k], floor).value then Some(latest[k]) else None
    ensures HeadsFor(expired, tables, prior, floor, heads)
  {
    hide UnitOk, Visible, LatestOf, SealedFacts, SectionsOf, SectionOk;
    forall k: Key ensures Folded(expired, tables, prior, k) == Get(latest, k) { }
  }

  // ------------------------------------------------------------ what it keeps

  /**
   Retention preserves meaning: at and above the new floor, the heads and the remaining
   units show of every key what the old heads and all units showed.
   */
  lemma FoldPreserves(units: seq<Unit>, n: nat, tables: map<nat, Table>, prior: Option<Heads>, floor: I64,
                      heads: map<Key, Fact>, k: Key, at: int)
    requires UnitsOk(units) && n <= |units| && k.table in tables && (prior.Some? ==> HeadsOk(prior.value))
    requires MayExpire(prior, units[..n], floor) && HeadsFor(units[..n], tables, Entries(prior), floor, heads)
    requires floor <= at
    ensures ValueAt(units[n..], tables[k.table], heads, k, at) == ValueAt(units, tables[k.table], Entries(prior), k, at)
    ensures Sane(units, k.table, tables[k.table]) ==> Sane(units[n..], k.table, tables[k.table])
  {
    hide UnitOk, SectionOk, Visible, Predecessor, SealedFacts, LookupOf, SectionsOf, Routed, LatestOf, Sane;
    var t := tables[k.table];
    if Sane(units, k.table, t) { RestReadable(units, n, k.table, t); }
    var expired, rest := units[..n], units[n..];
    SectionsOfOk(expired, k.table);
    SectionsOfOk(rest, k.table);
    ExpiredApart(units, n, k, t, at);
    ExpiredOld(expired, k, floor);
    PredecessorAll(SealedFacts(SectionsOf(expired, k.table), k), at);
    FoldedShows(expired, tables, prior, floor, heads, k, at);
    LookupHead(t, k, expired, tables, Entries(prior), floor, heads, at);
  }

  /** What is left of a table that could be read can be read. */
  lemma RestReadable(units: seq<Unit>, n: nat, table: nat, t: Table)
    requires UnitsOk(units) && n <= |units| && Sane(units, table, t)
    ensures Sane(units[n..], table, t)
  {
    hide UnitOk, SectionOk, VersionKnown, SectionsOf;
    var a, b := SectionsOf(units[..n], table), SectionsOf(units[n..], table);
    Sequences.Cut(units, n);
    SectionsConcat(units[..n], units[n..], table);
    forall i | 0 <= i < |b| ensures (a + b)[|a| + i] == b[i] { }
    forall i, j | 0 <= i < j < |b| ensures b[i].maxTs < b[j].minTs {
      assert (a + b)[|a| + i] == b[i] && (a + b)[|a| + j] == b[j];
    }
    if b != [] { assert Last(a + b) == Last(b); }
  }

  // Everything of a list that lies in the past has its last fact as predecessor.
  lemma PredecessorAll(fs: seq<Fact>, at: int)
    requires forall f | f in fs :: f.ts <= at
    ensures Predecessor(fs, at) == LatestOf(fs, None)
  {
    if fs != [] { assert Last(fs) in fs; }
  }

  // The expired facts come before all others of the key.
  lemma ExpiredApart(units: seq<Unit>, n: nat, k: Key, t: Table, at: int)
    requires UnitsOk(units) && n <= |units|
    ensures SectionsOk(SectionsOf(units[..n], k.table))
    ensures Predecessor(AllFacts(units, t, k), at) ==
            if Predecessor(AllFacts(units[n..], t, k), at).Some? then Predecessor(AllFacts(units[n..], t, k), at)
            else Predecessor(SealedFacts(SectionsOf(units[..n], k.table), k), at)
  {
    hide UnitOk, SectionOk, Predecessor, SealedFacts, SectionsOf;
    var a, b := SectionsOf(units[..n], k.table), SectionsOf(units[n..], k.table);
    Sequences.Cut(units, n);
    SectionsConcat(units[..n], units[n..], k.table);
    SectionsOfOk(units[..n], k.table);
    SectionsOfOk(units[n..], k.table);
    SectionsOfOk(units, k.table);
    SealedConcat(a, b, k);
    Sequences.Associative(SealedFacts(a, k), SealedFacts(b, k), TailOf(t, k));
    PredecessorConcat(SealedFacts(a, k), SealedFacts(b, k) + TailOf(t, k), at);
  }

  lemma {:induction false} ExpiredOld(expired: seq<Unit>, k: Key, floor: int)
    requires UnitsOk(expired) && forall i | 0 <= i < |expired| :: expired[i].maxTs < floor
    ensures SectionsOk(SectionsOf(expired, k.table)) && forall f | f in SealedFacts(SectionsOf(expired, k.table), k) ::
      f.ts < floor
    decreases |expired|
  {
    SectionsOfOk(expired, k.table);
    if expired != [] {
      hide SectionOk;
      var n := |expired| - 1;
      ExpiredOld(expired[..n], k, floor);
      TableSectionsOk(expired[n].sections, k.table);
      EarlierSections(TableSections(expired[n].sections, k.table), expired[n], k, floor);
      SealedConcat(SectionsOf(expired[..n], k.table), TableSections(expired[n].sections, k.table), k);
    }
  }

  lemma {:induction false} EarlierSections(ss: seq<Section>, u: Unit, k: Key, floor: int)
    requires UnitOk(u) && u.maxTs < floor && forall s | s in ss :: s in u.sections
    ensures SectionsOk(ss) && forall f | f in SealedFacts(ss, k) :: f.ts < floor
    decreases |ss|
  {
    forall i | 0 <= i < |ss| ensures SectionOk(ss[i]) && ss[i].maxTs <= u.maxTs { assert ss[i] in u.sections; }
    if ss != [] {
      hide SectionOk, SectionFacts;
      EarlierSections(ss[..|ss| - 1], u, k, floor);
      SectionWithin(Last(ss), k);
    }
  }

  // Where no newer fact is left, the folded head is what was there before.
  lemma FoldedShows(expired: seq<Unit>, tables: map<nat, Table>, prior: Option<Heads>, floor: I64,
                    heads: map<Key, Fact>, k: Key, at: int)
    requires UnitsOk(expired) && MayExpire(prior, expired, floor) && (prior.Some? ==> HeadsOk(prior.value))
    requires floor <= at
    requires k.table in tables && HeadsFor(expired, tables, Entries(prior), floor, heads)
    ensures SectionsOk(SectionsOf(expired, k.table))
    ensures Folded(expired, tables, Entries(prior), k) ==
            WithHead(LatestOf(SealedFacts(SectionsOf(expired, k.table), k), None), Entries(prior), k, at)
    ensures Folded(expired, tables, Entries(prior), k).Some? ==>
      Folded(expired, tables, Entries(prior), k).value.ts <= floor
  {
    hide UnitOk, SectionOk, Visible, SectionsOf, Routed;
    SectionsOfOk(expired, k.table);
    ExpiredOld(expired, k, floor);
    var fs := SealedFacts(SectionsOf(expired, k.table), k);
    hide SealedFacts;
    assert fs != [] ==> Last(fs) in fs;
  }

  // Keeping only what is visible at the floor shows the same later.
  lemma LookupHead(t: Table, k: Key, expired: seq<Unit>, tables: map<nat, Table>, prior: map<Key, Fact>, floor: I64,
                   heads: map<Key, Fact>, at: int)
    requires UnitsOk(expired) && k.table in tables && t == tables[k.table] && floor <= at
    requires HeadsFor(expired, tables, prior, floor, heads)
    requires Folded(expired, tables, prior, k).Some? ==> Folded(expired, tables, prior, k).value.ts <= floor
    ensures LookupOf(t, k, WithHead(None, heads, k, at), at) == LookupOf(t, k, Folded(expired, tables, prior, k), at)
    ensures forall fact: Option<Fact> | fact.Some? :: WithHead(fact, heads, k, at) == fact
  {
    hide UnitOk, Visible, Folded;
    var f := Folded(expired, tables, prior, k);
    if f.Some? { InvisibleForEver(t, k, f.value, floor, at); }
  }

  // The first units that ended before a cutoff.
  predicate CutsAt(units: seq<Unit>, n: nat, cutoff: I64) {
    && n <= |units| && (forall i | 0 <= i < n :: units[i].maxTs < cutoff) && (n < |units| ==> cutoff <= units[n].maxTs)
  }

  // Tables that could be read still can be.
  ghost predicate StillSane(tables: map<nat, Table>, units: seq<Unit>, rest: seq<Unit>) {
    forall table | table in tables :: Sane(units, table, tables[table]) ==> Sane(rest, table, tables[table])
  }

  lemma RestSane(tables: map<nat, Table>, units: seq<Unit>, n: nat)
    requires UnitsOk(units) && n <= |units|
    ensures StillSane(tables, units, units[n..])
  {
    hide UnitsOk, Sane;
    forall table | table in tables && Sane(units, table, tables[table])
      ensures Sane(units[n..], table, tables[table])
    {
      RestReadable(units, n, table, tables[table]);
    }
  }

  // The same lookups at and above a floor.
  ghost predicate ShowsSame(tables: map<nat, Table>, units: seq<Unit>, prior: Option<Heads>, rest: seq<Unit>,
                            heads: Option<Heads>)
    requires UnitsOk(units) && UnitsOk(rest)
  {
    forall k: Key, at: int | k.table in tables && (heads.Some? ==> heads.value.floor <= at) ::
      ValueAt(rest, tables[k.table], Entries(heads), k, at) == ValueAt(units, tables[k.table], Entries(prior), k, at)
  }

  lemma FoldShowsSame(tables: map<nat, Table>, units: seq<Unit>, n: nat, prior: Option<Heads>, heads: Heads)
    requires UnitsOk(units) && n <= |units| && (prior.Some? ==> HeadsOk(prior.value))
    requires MayExpire(prior, units[..n], heads.floor)
    requires HeadsFor(units[..n], tables, Entries(prior), heads.floor, heads.entries)
    ensures ShowsSame(tables, units, prior, units[n..], Some(heads))
  {
    hide UnitOk, HeadsFor, ValueAt, Routed, HeadsOk;
    forall k: Key, at: int | k.table in tables && heads.floor <= at
      ensures ValueAt(units[n..], tables[k.table], heads.entries, k, at) == ValueAt(units, tables[k.table],
                                                                                    Entries(prior), k, at)
    {
      FoldPreserves(units, n, tables, prior, heads.floor, heads.entries, k, at);
    }
  }

  // The floor right above the first units.
  predicate FloorOf(units: seq<Unit>, n: nat, floor: int)
    requires n <= |units|
  {
    (forall i | 0 <= i < n :: units[i].maxTs < floor) && exists i :: 0 <= i < n && units[i].maxTs + 1 == floor
  }

  // What stops the first units from being folded at a floor.
  ghost predicate Refused(units: seq<Unit>, n: nat, tables: map<nat, Table>, prior: Option<Heads>, floor: int)
    requires UnitsOk(units) && n <= |units|
  {
    || floor < I64_MIN || floor > I64_MAX || !Expirable(prior, units[..n], tables, floor)
    || exists heads :: HeadsFor(units[..n], tables, Entries(prior), floor, heads) && |heads| > 262_144
  }

  /** Drops the units that ended before a cutoff; no lookup at or above the new floor changes. */
  method Retain(units: seq<Unit>, tables: map<nat, Table>, prior: Option<Heads>, cutoff: I64)
    returns (r: Result<(seq<Unit>, Option<Heads>)>)
    requires UnitsOk(units) && (prior.Some? ==> HeadsOk(prior.value))
    ensures r.Ok? ==> UnitsOk(r.value.0) && (r.value.1.Some? ==> HeadsOk(r.value.1.value))
    ensures r.Ok? ==> exists n: nat :: CutsAt(units, n, cutoff) && r.value.0 == units[n..]
    ensures r.Ok? ==> ShowsSame(tables, units, prior, r.value.0, r.value.1) && StillSane(tables, units, r.value.0)
    ensures r.Ok? && r.value.0 != units ==> r.value.1.Some? && r.value.1.value.floor <= cutoff
    ensures r.Err? ==> exists n: nat, floor: int ::
      CutsAt(units, n, cutoff) && FloorOf(units, n, floor) && Refused(units, n, tables, prior, floor)
  {
    hide UnitsOk, HeadsOk, ShowsSame, StillSane, CutsAt, FloorOf, Refused;
    var n := ExpiredPrefix(units, cutoff);
    CutBefore(units, n, cutoff);
    RestSane(tables, units, n);
    if n == 0 {
      ShowsItself(tables, units, prior);
      Sequences.Neutral(units);
      return Ok((units, prior));
    }
    var heads :- FoldPrefix(units, n, tables, prior);
    return Ok((units[n..], Some(heads)));
  }

  lemma FloorAdvances(prior: Option<Heads>, expired: seq<Unit>, tables: map<nat, Table>, floor: I64)
    requires UnitsOk(expired) && Expirable(prior, expired, tables, floor)
    ensures prior.Some? ==> prior.value.floor < floor
  {
    hide UnitOk, SectionOk, Keepable, Foldable, Folded, SectionsOf, Routed;
  }

  // How many units end before the cutoff.
  method ExpiredPrefix(units: seq<Unit>, cutoff: I64) returns (n: nat)
    ensures CutsAt(units, n, cutoff)
  {
    n := 0;
    while n < |units| && units[n].maxTs < cutoff
      invariant n <= |units| && forall i | 0 <= i < n :: units[i].maxTs < cutoff
    {
      n := n + 1;
    }
  }

  lemma CutBefore(units: seq<Unit>, n: nat, cutoff: I64)
    requires UnitsOk(units) && CutsAt(units, n, cutoff)
    ensures n <= |units| && UnitsOk(units[n..]) && forall i | 0 <= i < n :: units[i].maxTs < cutoff
  {
  }

  // Folds the first units at the floor right above them.
  method FoldPrefix(units: seq<Unit>, n: nat, tables: map<nat, Table>, prior: Option<Heads>) returns (r: Result<Heads>)
    requires UnitsOk(units) && 0 < n <= |units| && (prior.Some? ==> HeadsOk(prior.value))
    ensures r.Ok? ==> HeadsOk(r.value) && UnitsOk(units[n..])
    ensures r.Ok? ==> ShowsSame(tables, units, prior, units[n..], Some(r.value))
    ensures r.Ok? ==> exists i :: 0 <= i < n && r.value.floor == units[i].maxTs + 1
    ensures r.Err? ==> exists floor: int :: FloorOf(units, n, floor) && Refused(units, n, tables, prior, floor)
  {
    hide UnitOk, HeadsFor, ValueAt, Routed, HeadsOk, ShowsSame, MayExpire, Expirable;
    var maximum := Maximum(units[..n]);
    ghost var above: int := maximum as int + 1;
    assert FloorOf(units, n, above);
    if maximum == I64_MAX { return Err(Limit); }
    var floor: I64 := maximum + 1;
    if prior.Some? && floor <= prior.value.floor {
      if Expirable(prior, units[..n], tables, floor) { FloorAdvances(prior, units[..n], tables, floor); }
      return Err(Invalid);
    }
    var heads :- Fold(prior, units[..n], tables, floor);
    FoldShowsSame(tables, units, n, prior, heads);
    return Ok(heads);
  }

  lemma ShowsItself(tables: map<nat, Table>, units: seq<Unit>, prior: Option<Heads>)
    requires UnitsOk(units)
    ensures ShowsSame(tables, units, prior, units, prior)
  {
    hide ValueAt, UnitsOk;
  }

  method Maximum(units: seq<Unit>) returns (m: I64)
    requires units != []
    ensures (forall i | 0 <= i < |units| :: units[i].maxTs <= m) && exists i :: 0 <= i < |units| && units[i].maxTs == m
  {
    m := units[0].maxTs;
    for i := 0 to |units|
      invariant (forall a | 0 <= a < i :: units[a].maxTs <= m) && exists a :: 0 <= a < |units| && units[a].maxTs == m
    {
      if units[i].maxTs > m { m := units[i].maxTs; }
    }
  }
}
