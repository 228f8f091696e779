/**
 Batched reverse lookup and range visiting over a catalog: the loops that skip, stop early
 and search, proved against `Catalog.Predecessor` and `Catalog.InRange`.
 */
module Lookups {
  import opened Prelude
  import opened Cells
  import opened Catalog
  import Sequences

  predicate Less(a: Key, b: Key) {
    a.table < b.table || (a.table == b.table && (a.series < b.series || (a.series == b.series && a.field < b.field)))
  }

  // A key that may be asked for.
  predicate KeyOk(tables: map<nat, Table>, k: Key) {
    k.table in tables && tables[k.table].versions != [] && k.field in Last(tables[k.table].versions).fields
  }

  predicate Increasing(keys: seq<Key>) { forall i | 0 < i < |keys| :: Less(keys[i - 1], keys[i]) }

  lemma {:induction false} IncreasingAll(keys: seq<Key>, i: nat, j: nat)
    requires Increasing(keys) && i < j < |keys|
    ensures Less(keys[i], keys[j])
    decreases j
  {
    if i < j - 1 { IncreasingAll(keys, i, j - 1); }
  }

  predicate GroupOk(tables: map<nat, Table>, table: nat, keys: seq<Key>) {
    && Increasing(keys) && forall i | 0 <= i < |keys| :: keys[i].table == table && KeyOk(tables, keys[i])
  }

  predicate UnitsSorted(units: seq<Unit>) {
    && (forall i | 0 < i < |units| :: Routed(units[i - 1], units[i]))
    && (forall i, j | 0 <= i < j < |units| :: units[i].id != units[j].id)
  }

  predicate TablesOk(tables: map<nat, Table>) { forall t | t in tables :: TableOk(tables[t]) }

  predicate VersionKnown(t: Table, s: Section) { exists i :: 0 <= i < |t.versions| && t.versions[i].no == s.version }

  // --------------------------------------------------------------- validation

  method ValidateGroup(tables: map<nat, Table>, table: nat, keys: seq<Key>) returns (r: Result<()>)
    ensures r.Ok? <==> GroupOk(tables, table, keys)
  {
    for i := 0 to |keys|
      invariant forall a | 0 < a < i :: Less(keys[a - 1], keys[a])
    {
      if i > 0 && !Less(keys[i - 1], keys[i]) { return Err(Invalid); }
    }
    for i := 0 to |keys|
      invariant forall a | 0 <= a < i :: keys[a].table == table && KeyOk(tables, keys[a])
    {
      if keys[i].table != table || !KeyOk(tables, keys[i]) { return Err(Invalid); }
    }
    return Ok(());
  }

  predicate Routed(a: Unit, b: Unit) { a.minTs < b.minTs || (a.minTs == b.minTs && a.id < b.id) }

  method ValidateUnits(units: seq<Unit>) returns (r: Result<()>)
    ensures r.Ok? <==> UnitsSorted(units)
  {
    for i := 0 to |units|
      invariant forall a | 0 < a < i :: Routed(units[a - 1], units[a])
    {
      if i > 0 && !Routed(units[i - 1], units[i]) { return Err(Corruption); }
    }
    var distinct := DistinctIds(units);
    return if distinct then Ok(()) else Err(Corruption);
  }

  method DistinctIds(units: seq<Unit>) returns (distinct: bool)
    ensures distinct <==> forall i, j | 0 <= i < j < |units| :: units[i].id != units[j].id
  {
    var ids: set<nat> := {};
    for i := 0 to |units|
      invariant ids == set a | 0 <= a < i :: units[a].id
      invariant forall a, b | 0 <= a < b < i :: units[a].id != units[b].id
    {
      if units[i].id in ids { return false; }
      ids := ids + {units[i].id};
    }
    return true;
  }

  lemma {:induction false} SortedMins(units: seq<Unit>, i: nat, j: nat)
    requires UnitsSorted(units) && i <= j < |units|
    ensures units[i].minTs <= units[j].minTs
    decreases j
  {
    if i < j { SortedMins(units, i, j - 1); }
  }

  // Whether a section may precede a newer one.
  predicate Precedes(older: Section, newer: Section) { older.minTs < newer.minTs && older.maxTs < newer.minTs }

  // ------------------------------------------------------------------ lists

  lemma {:induction false} SectionsConcat(a: seq<Unit>, b: seq<Unit>, table: nat)
    ensures SectionsOf(a + b, table) == SectionsOf(a, table) + SectionsOf(b, table)
    decreases |b|
  {
    if b == [] {
      Sequences.Neutral(a);
      Sequences.Neutral(SectionsOf(a, table));
    } else {
      var n := |b| - 1;
      assert Last(a + b) == Last(b) && (a + b)[..|a + b| - 1] == a + b[..n];
      SectionsConcat(a, b[..n], table);
      Sequences.Associative(SectionsOf(a, table), SectionsOf(b[..n], table), TableSections(b[n].sections, table));
    }
  }

  lemma {:induction false} SealedConcat(a: seq<Section>, b: seq<Section>, k: Key)
    requires SectionsOk(a) && SectionsOk(b)
    ensures SectionsOk(a + b) && SealedFacts(a + b, k) == SealedFacts(a, k) + SealedFacts(b, k)
    decreases |b|
  {
    hide SectionOk, SectionFacts;
    if b == [] {
      Sequences.Neutral(a);
      Sequences.Neutral(SealedFacts(a, k));
    } else {
      var n := |b| - 1;
      assert Last(a + b) == Last(b) && (a + b)[..|a + b| - 1] == a + b[..n];
      SealedConcat(a, b[..n], k);
      Sequences.Associative(SealedFacts(a, k), SealedFacts(b[..n], k), SectionFacts(b[n], k));
    }
  }

  lemma SealedOne(s: Section, k: Key)
    requires SectionOk(s)
    ensures SectionsOk([s]) && SealedFacts([s], k) == SectionFacts(s, k)
  {
    assert [s][..0] == [];
    hide SectionOk, SectionFacts;
    assert SealedFacts([], k) == [];
    Sequences.Neutral(SectionFacts(s, k));
  }

  // ----------------------------------------------------------------- searching

  /** How many facts of an ascending list lie at or before a time. */
  method UpperBound(fs: seq<Fact>, at: int) returns (n: nat)
    requires Ascending(fs)
    ensures n <= |fs| && (forall i | 0 <= i < n :: fs[i].ts <= at) && (forall i | n <= i < |fs| :: at < fs[i].ts)
  {
    var low, high := 0, |fs|;
    while low < high
      invariant 0 <= low <= high <= |fs|
      invariant (forall i | 0 <= i < low :: fs[i].ts <= at) && (forall i | high <= i < |fs| :: at < fs[i].ts)
    {
      var mid := (low + high) / 2;
      if fs[mid].ts <= at { low := mid + 1; } else { high := mid; }
    }
    return low;
  }

  method TailPredecessor(fs: seq<Fact>, at: int) returns (r: Option<Fact>)
    requires Ascending(fs)
    ensures r == Predecessor(fs, at)
  {
    var upper := UpperBound(fs, at);
    Sequences.Parts(fs[..upper], fs[upper..]);
    assert fs == fs[..upper] + fs[upper..];
    PredecessorConcat(fs[..upper], fs[upper..], at);
    PredecessorNone(fs[upper..], at);
    return if upper == 0 then None else Some(fs[upper - 1]);
  }

  /** The newest cell of a column at or before a time, scanning backwards. */
  method ScanBack(timestamps: seq<I64>, cells: seq<Option<Cell>>, at: int) returns (r: Option<Fact>)
    requires |timestamps| == |cells|
    ensures r == Predecessor(Picked(timestamps, cells), at)
  {
    var n: nat := |cells|;
    Sequences.Neutral(cells);
    Sequences.Neutral(timestamps);
    while n > 0
      invariant n <= |cells|
      invariant Predecessor(Picked(timestamps[..n], cells[..n]), at) == Predecessor(Picked(timestamps, cells), at)
    {
      PickedBack(timestamps, cells, n, at);
      n := n - 1;
      if timestamps[n] <= at && cells[n].Some? { return Some(Fact(timestamps[n], cells[n].value)); }
    }
    return None;
  }

  lemma PickedBack(timestamps: seq<I64>, cells: seq<Option<Cell>>, n: nat, at: int)
    requires |timestamps| == |cells| && 0 < n <= |cells|
    ensures Predecessor(Picked(timestamps[..n], cells[..n]), at) ==
            if timestamps[n - 1] <= at && cells[n - 1].Some? then Some(Fact(timestamps[n - 1], cells[n - 1].value))
            else Predecessor(Picked(timestamps[..n - 1], cells[..n - 1]), at)
  {
    assert timestamps[..n][..n - 1] == timestamps[..n - 1] && cells[..n][..n - 1] == cells[..n - 1];
    var before := Picked(timestamps[..n - 1], cells[..n - 1]);
    match cells[n - 1] {
      case None => Sequences.Neutral(before);
      case Some(v) => Sequences.Unsnoc(before, Fact(timestamps[n - 1], v));
    }
  }

  method IndexOf(keys: seq<Key>, k: Key) returns (r: Option<nat>)
    ensures r.Some? ==> r.value < |keys| && keys[r.value] == k
    ensures r.None? ==> k !in keys
  {
    for i := 0 to |keys|
      invariant k !in keys[..i]
    {
      if keys[i] == k { return Some(i); }
    }
    return None;
  }

  lemma KeyOnce(keys: seq<Key>, index: nat, k: Key)
    requires Increasing(keys) && index < |keys| && keys[index] == k
    ensures forall i | 0 <= i < |keys| :: keys[i] == k <==> i == index
  {
    forall i | 0 <= i < |keys| && i != index ensures keys[i] != k {
      if i < index { IncreasingAll(keys, i, index); } else { IncreasingAll(keys, index, i); }
    }
  }

  // What the columns seen so far answer for a key.
  function FromColumns(s: Section, columns: seq<Column>, k: Key, at: int): Option<Fact>
    requires forall i | 0 <= i < |columns| :: |columns[i].cells| == |s.timestamps|
  {
    ColumnOfSize(columns, |s.timestamps|, k.series, k.field);
    match ColumnOf(columns, k.series, k.field)
    case None => None
    case Some(c) => Predecessor(Picked(s.timestamps, c.cells), at)
  }

  lemma ColumnNext(columns: seq<Column>, c: nat, series: nat, field: nat)
    requires c < |columns|
    ensures ColumnOf(columns[..c + 1], series, field) ==
            if columns[c].series == series && columns[c].field == field then Some(columns[c])
            else ColumnOf(columns[..c], series, field)
  {
    assert columns[..c + 1][..c] == columns[..c];
  }

  lemma {:induction false} ColumnFound(columns: seq<Column>, c: nat, rows: nat)
    requires ColumnsOk(columns, rows) && c < |columns|
    ensures ColumnOf(columns, columns[c].series, columns[c].field) == Some(columns[c])
    decreases |columns|
  {
    var n := |columns| - 1;
    if c < n { ColumnFound(columns[..n], c, rows); }
  }

  lemma {:induction false} ColumnAbsent(columns: seq<Column>, c: nat, rows: nat)
    requires ColumnsOk(columns, rows) && c < |columns|
    ensures ColumnOf(columns[..c], columns[c].series, columns[c].field) == None
  {
    ColumnNowhere(columns[..c], columns[c].series, columns[c].field);
  }

  lemma {:induction false} ColumnNowhere(columns: seq<Column>, series: nat, field: nat)
    requires forall i | 0 <= i < |columns| :: (columns[i].series, columns[i].field) != (series, field)
    ensures ColumnOf(columns, series, field) == None
    decreases |columns|
  {
    if columns != [] {
      assert (Last(columns).series, Last(columns).field) != (series, field);
      ColumnNowhere(columns[..|columns| - 1], series, field);
    }
  }

  /** Answers from one section the keys that newer sections left open. */
  method FillFrom(s: Section, table: nat, keys: seq<Key>, facts: seq<Option<Fact>>, at: int)
    returns (filled: seq<Option<Fact>>)
    requires SectionOk(s) && |facts| == |keys| && (forall i | 0 <= i < |keys| :: keys[i].table == table)
    requires Increasing(keys)
    ensures |filled| == |keys|
    ensures forall i | 0 <= i < |keys| ::
      filled[i] == if facts[i].Some? then facts[i] else Predecessor(SectionFacts(s, keys[i]), at)
  {
    filled := facts;
    for c := 0 to |s.columns|
      invariant |filled| == |keys|
      invariant forall i | 0 <= i < |keys| ::
        filled[i] == if facts[i].Some? then facts[i] else FromColumns(s, s.columns[..c], keys[i], at)
    {
      var column := s.columns[c];
      ColumnAbsent(s.columns, c, |s.timestamps|);
      forall i | 0 <= i < |keys|
        ensures ColumnOf(s.columns[..c + 1], keys[i].series, keys[i].field) ==
                if column.series == keys[i].series && column.field == keys[i].field then Some(column)
                else ColumnOf(s.columns[..c], keys[i].series, keys[i].field)
      {
        ColumnNext(s.columns, c, keys[i].series, keys[i].field);
      }
      var index := IndexOf(keys, Key(table, column.series, column.field));
      if index.Some? { KeyOnce(keys, index.value, Key(table, column.series, column.field)); }
      if index.Some? && facts[index.value].None? {
        var found := ScanBack(s.timestamps, column.cells, at);
        filled := filled[index.value := found];
      }
    }
    Sequences.Neutral(s.columns);
  }

  function Unresolved(facts: seq<Option<Fact>>): nat {
    if facts == [] then 0 else Unresolved(facts[..|facts| - 1]) + (if Last(facts).None? then 1 else 0)
  }

  lemma {:induction false} AllResolved(facts: seq<Option<Fact>>)
    ensures Unresolved(facts) == 0 <==> forall i | 0 <= i < |facts| :: facts[i].Some?
    decreases |facts|
  {
    if facts != [] { AllResolved(facts[..|facts| - 1]); }
  }

  // ------------------------------------------------------------ reverse lookup

  // The answers from the tail and the sections seen so far, newest first.
  ghost predicate Answered(seen: seq<Section>, t: Table, keys: seq<Key>, at: int, facts: seq<Option<Fact>>)
    requires SectionsOk(seen)
  {
    |facts| == |keys| && forall i | 0 <= i < |keys| ::
      facts[i] == Predecessor(SealedFacts(seen, keys[i]) + TailOf(t, keys[i]), at)
  }

  lemma AnsweredMore(s: Section, seen: seq<Section>, t: Table, keys: seq<Key>, at: int, facts: seq<Option<Fact>>,
                     filled: seq<Option<Fact>>)
    requires SectionOk(s) && SectionsOk(seen) && Answered(seen, t, keys, at, facts) && |filled| == |keys|
    requires forall i | 0 <= i < |keys| ::
      filled[i] == if facts[i].Some? then facts[i] else Predecessor(SectionFacts(s, keys[i]), at)
    ensures SectionsOk([s] + seen) && Answered([s] + seen, t, keys, at, filled)
  {
    hide SectionOk, SectionFacts, SealedFacts, Predecessor;
    assert SectionsOk([s] + seen);
    forall i | 0 <= i < |keys|
      ensures filled[i] == Predecessor(SealedFacts([s] + seen, keys[i]) + TailOf(t, keys[i]), at)
    {
      SealedOne(s, keys[i]);
      SealedConcat([s], seen, keys[i]);
      var a, b, c := SectionFacts(s, keys[i]), SealedFacts(seen, keys[i]), TailOf(t, keys[i]);
      Sequences.Associative(a, b, c);
      PredecessorConcat(a, b + c, at);
    }
  }

  // A section that begins later has nothing to answer.
  lemma LaterSection(s: Section, keys: seq<Key>, at: int)
    requires SectionOk(s) && s.minTs > at
    ensures forall i | 0 <= i < |keys| :: Predecessor(SectionFacts(s, keys[i]), at) == None
  {
    forall i | 0 <= i < |keys| ensures Predecessor(SectionFacts(s, keys[i]), at) == None {
      SectionWithin(s, keys[i]);
      PredecessorNone(SectionFacts(s, keys[i]), at);
    }
  }

  // Once every key is answered, older sections cannot change an answer.
  lemma AnsweredAll(older: seq<Section>, seen: seq<Section>, t: Table, keys: seq<Key>, at: int,
                    facts: seq<Option<Fact>>)
    requires SectionsOk(older) && SectionsOk(seen) && Answered(seen, t, keys, at, facts)
    requires older == [] || forall i | 0 <= i < |facts| :: facts[i].Some?
    ensures SectionsOk(older + seen) && Answered(older + seen, t, keys, at, facts)
  {
    hide SectionOk, Predecessor;
    assert SectionsOk(older + seen);
    forall i | 0 <= i < |keys|
      ensures facts[i] == Predecessor(SealedFacts(older + seen, keys[i]) + TailOf(t, keys[i]), at)
    {
      SealedConcat(older, seen, keys[i]);
      var a, b, c := SealedFacts(older, keys[i]), SealedFacts(seen, keys[i]), TailOf(t, keys[i]);
      Sequences.Associative(a, b, c);
      PredecessorConcat(a, b + c, at);
      if older == [] { Sequences.Neutral(b + c); }
    }
  }

  // Units that begin later have nothing to answer.
  lemma {:induction false} LaterUnits(units: seq<Unit>, k: Key, at: int)
    requires UnitsOk(units) && forall i | 0 <= i < |units| :: units[i].minTs > at
    ensures SectionsOk(SectionsOf(units, k.table)) && forall f | f in SealedFacts(SectionsOf(units, k.table), k) ::
      f.ts > at
    decreases |units|
  {
    SectionsOfOk(units, k.table);
    if units != [] {
      hide SectionOk;
      var n := |units| - 1;
      LaterUnits(units[..n], k, at);
      TableSectionsOk(units[n].sections, k.table);
      LaterSections(TableSections(units[n].sections, k.table), units[n], k, at);
      SealedConcat(SectionsOf(units[..n], k.table), TableSections(units[n].sections, k.table), k);
    }
  }

  lemma {:induction false} LaterSections(ss: seq<Section>, u: Unit, k: Key, at: int)
    requires UnitOk(u) && u.minTs > at && forall s | s in ss :: s in u.sections
    ensures SectionsOk(ss) && forall f | f in SealedFacts(ss, k) :: f.ts > at
    decreases |ss|
  {
    forall i | 0 <= i < |ss| ensures SectionOk(ss[i]) && u.minTs <= ss[i].minTs { assert ss[i] in u.sections; }
    if ss != [] {
      hide SectionOk, SectionFacts;
      LaterSections(ss[..|ss| - 1], u, k, at);
      SectionWithin(Last(ss), k);
    }
  }

  lemma AnsweredTail(units: seq<Unit>, upper: nat, table: nat, t: Table, keys: seq<Key>, at: int,
                     facts: seq<Option<Fact>>)
    requires UnitsOk(units) && upper <= |units| && (forall i | upper <= i < |units| :: units[i].minTs > at)
    requires forall i | 0 <= i < |keys| :: keys[i].table == table
    requires |facts| == |keys| && forall i | 0 <= i < |keys| :: facts[i] == Predecessor(TailOf(t, keys[i]), at)
    ensures SectionsOk(SectionsOf(units[upper..], table))
    ensures Answered(SectionsOf(units[upper..], table), t, keys, at, facts)
  {
    hide UnitOk, SectionOk, Predecessor;
    SectionsOfOk(units[upper..], table);
    forall i | 0 <= i < |keys|
      ensures facts[i] == Predecessor(SealedFacts(SectionsOf(units[upper..], table), keys[i]) + TailOf(t, keys[i]), at)
    {
      LaterUnits(units[upper..], keys[i], at);
      PredecessorNone(SealedFacts(SectionsOf(units[upper..], table), keys[i]), at);
      PredecessorConcat(SealedFacts(SectionsOf(units[upper..], table), keys[i]), TailOf(t, keys[i]), at);
    }
  }

  method UpperUnit(units: seq<Unit>, at: int) returns (n: nat)
    requires UnitsSorted(units)
    ensures n <= |units| && (forall i | 0 <= i < n :: units[i].minTs <= at)
    ensures (forall i | n <= i < |units| :: at < units[i].minTs)
  {
    var low, high := 0, |units|;
    while low < high
      invariant 0 <= low <= high <= |units|
      invariant (forall i | 0 <= i < low :: units[i].minTs <= at)
        && (forall i | high <= i < |units| :: at < units[i].minTs)
    {
      var mid := (low + high) / 2;
      if units[mid].minTs <= at {
        forall i | 0 <= i <= mid ensures units[i].minTs <= at { SortedMins(units, i, mid); }
        low := mid + 1;
      } else {
        forall i | mid <= i < |units| ensures at < units[i].minTs { SortedMins(units, mid, i); }
        high := mid;
      }
    }
    return low;
  }

  // All versions of the sections of a table are known.
  predicate AllKnown(t: Table, ss: seq<Section>) { forall i | 0 <= i < |ss| :: VersionKnown(t, ss[i]) }

  // A table whose sections a lookup never objects to.
  predicate Sane(units: seq<Unit>, table: nat, t: Table) {
    OrderedTable(units, table, t) && AllKnown(t, SectionsOf(units, table))
  }

  // Whether a section fits in front of the newer one, or of the tail.
  predicate Joins(s: Section, newer: Option<Section>, firstRow: Option<I64>) {
    match newer case Some(n) => Precedes(s, n) case None => firstRow.Some? ==> s.maxTs < firstRow.value
  }

  // Sections that a lookup never objects to.
  predicate Acceptable(ss: seq<Section>, rest: seq<Section>, t: Table) {
    Chain(ss + rest) && AllKnown(t, ss) && forall i | 0 <= i < |ss| && t.firstRow.Some? ::
      ss[i].maxTs < t.firstRow.value
  }

  /** Looks for open answers in the sections of one unit, newest first, until none is open. */
  method LookInto(sections: seq<Section>, table: nat, t: Table, keys: seq<Key>, at: int, start: seq<Option<Fact>>,
                  newest: Option<Section>, ghost seen: seq<Section>)
    returns (r: Result<(seq<Option<Fact>>, Option<Section>)>)
    requires SectionsOk(sections) && SectionsOk(seen) && Answered(seen, t, keys, at, start)
    requires Increasing(keys) && forall i | 0 <= i < |keys| :: keys[i].table == table
    requires newest.Some? ==> seen != [] && seen[0] == newest.value
    ensures SectionsOk(sections + seen)
    ensures r.Ok? ==> Answered(sections + seen, t, keys, at, r.value.0)
    ensures r.Ok? && Unresolved(r.value.0) > 0 && r.value.1.Some? ==>
      sections + seen != [] && (sections + seen)[0] == r.value.1.value
    ensures r.Err? ==> !Acceptable(sections, seen, t)
  {
    hide SectionOk, SealedFacts, Predecessor, SectionFacts, Chain, VersionKnown, Unresolved;
    var facts, newer := start, newest;
    var j: nat := |sections|;
    Sequences.Neutral(sections);
    Sequences.Neutral(seen);
    while j > 0
      invariant j <= |sections| && SectionsOk(sections[j..] + seen) && Answered(sections[j..] + seen, t, keys, at,
                                                                                facts)
      invariant newer.Some? ==> sections[j..] + seen != [] && (sections[j..] + seen)[0] == newer.value
      decreases j
    {
      j := j - 1;
      var s := sections[j];
      Sequences.Around(sections, j);
      Sequences.Associative([s], sections[j + 1..], seen);
      Sequences.Associative(sections[..j + 1], sections[j + 1..], seen);
      if !Joins(s, newer, t.firstRow) {
        Misplaced(sections, j, seen, newer, t);
        return Err(Corruption);
      }
      newer := Some(s);
      AllResolved(facts);
      if Unresolved(facts) == 0 {
        AnsweredAll(sections[..j + 1], sections[j + 1..] + seen, t, keys, at, facts);
        return Ok((facts, newer));
      }
      if s.minTs > at {
        LaterSection(s, keys, at);
        AnsweredMore(s, sections[j + 1..] + seen, t, keys, at, facts, facts);
      } else {
        if !VersionKnown(t, s) { return Err(Corruption); }
        var filled := FillFrom(s, table, keys, facts, at);
        AnsweredMore(s, sections[j + 1..] + seen, t, keys, at, facts, filled);
        facts := filled;
        AllResolved(facts);
        if Unresolved(facts) == 0 {
          Sequences.Cut(sections, j);
          Sequences.Associative(sections[..j], sections[j..], seen);
          AnsweredAll(sections[..j], sections[j..] + seen, t, keys, at, facts);
          return Ok((facts, newer));
        }
      }
    }
    return Ok((facts, newer));
  }

  lemma Misplaced(sections: seq<Section>, j: nat, seen: seq<Section>, newer: Option<Section>, t: Table)
    requires SectionsOk(sections) && j < |sections| && !Joins(sections[j], newer, t.firstRow)
    requires newer.Some? ==> sections[j + 1..] + seen != [] && (sections[j + 1..] + seen)[0] == newer.value
    ensures !Acceptable(sections, seen, t)
  {
    hide SectionOk;
    if newer.Some? {
      var all := sections + seen;
      assert all[j] == sections[j] && all[j + 1] == (sections[j + 1..] + seen)[0];
      SectionOrder(sections[j]);
      var end, begin := all[j].maxTs, all[j + 1].minTs;
      assert Chain(all) ==> end < begin;
    }
  }

  /**
   The latest fact at or before a time, for each key of a group, found from the tail and
   the newest sections backwards; it stops as soon as every key is answered.
   */
  method Predecessors(units: seq<Unit>, tables: map<nat, Table>, keys: seq<Key>, at: I64)
    returns (r: Result<seq<Option<Fact>>>)
    requires UnitsOk(units) && TablesOk(tables)
    ensures keys == [] ==> r == Ok([])
    ensures r.Ok? && keys != [] ==> GroupOk(tables, keys[0].table, keys) && |r.value| == |keys|
    ensures r.Ok? ==>
      forall i | 0 <= i < |keys| :: r.value[i] == Predecessor(AllFacts(units, tables[keys[0].table], keys[i]), at)
    ensures keys != [] && GroupOk(tables, keys[0].table, keys) && UnitsSorted(units) ==>
      Sane(units, keys[0].table, tables[keys[0].table]) ==> r.Ok?
  {
    hide SectionOk, UnitOk, Answered, Predecessor, Chain, VersionKnown, Unresolved, UnitsSorted, TableOk, Sane,
         AllFacts;
    if keys == [] { return Ok([]); }
    var table := keys[0].table;
    var _ :- ValidateGroup(tables, table, keys);
    var _ :- ValidateUnits(units);
    var t := tables[table];
    var facts := FromTail(t, keys, at);
    var upper := UpperUnit(units, at);
    var newer: Option<Section> := None;
    AnsweredTail(units, upper, table, t, keys, at, facts);
    var i: nat := upper;
    while i > 0
      invariant i <= upper && SectionsOk(SectionsOf(units[i..], table))
      invariant Answered(SectionsOf(units[i..], table), t, keys, at, facts)
      invariant newer.Some? ==> SectionsOf(units[i..], table) != [] && SectionsOf(units[i..], table)[0] == newer.value
      decreases i
    {
      i := i - 1;
      UnitFirst(units, i, table);
      SectionsOfOk(units[i..], table);
      ghost var seen := SectionsOf(units[i + 1..], table);
      var sections := TableSections(units[i].sections, table);
      SectionsParts(sections, seen);
      var looked := LookInto(sections, table, t, keys, at, facts, newer, seen);
      if looked.Err? {
        if Sane(units, table, t) { SaneSuffix(units, i, table, t); }
        return Err(looked.error);
      }
      facts, newer := looked.value.0, looked.value.1;
      AllResolved(facts);
      if Unresolved(facts) == 0 {
        LookedAll(units, i, table, t, keys, at, facts);
        return Ok(facts);
      }
    }
    LookedAll(units, 0, table, t, keys, at, facts);
    return Ok(facts);
  }

  method FromTail(t: Table, keys: seq<Key>, at: int) returns (facts: seq<Option<Fact>>)
    requires TableOk(t)
    ensures |facts| == |keys| && forall i | 0 <= i < |keys| :: facts[i] == Predecessor(TailOf(t, keys[i]), at)
  {
    hide Predecessor;
    facts := [];
    for i := 0 to |keys|
      invariant |facts| == i && forall a | 0 <= a < i :: facts[a] == Predecessor(TailOf(t, keys[a]), at)
    {
      var fact := TailPredecessor(TailOf(t, keys[i]), at);
      facts := facts + [fact];
    }
  }

  lemma SectionsParts(a: seq<Section>, b: seq<Section>)
    requires SectionsOk(a + b)
    ensures SectionsOk(a) && SectionsOk(b)
  {
    hide SectionOk;
    forall i | 0 <= i < |a| ensures SectionOk(a[i]) { assert (a + b)[i] == a[i]; }
    forall i | 0 <= i < |b| ensures SectionOk(b[i]) { assert (a + b)[|a| + i] == b[i]; }
  }

  lemma UnitFirst(units: seq<Unit>, i: nat, table: nat)
    requires i < |units|
    ensures SectionsOf(units[i..], table) == TableSections(units[i].sections, table) + SectionsOf(units[i + 1..], table)
  {
    var one := [units[i]];
    Sequences.Around(units, i);
    SectionsConcat(one, units[i + 1..], table);
    assert one[..0] == [] && SectionsOf([], table) == [] && Last(one) == units[i];
    Sequences.Neutral(TableSections(units[i].sections, table));
  }

  lemma LookedAll(units: seq<Unit>, i: nat, table: nat, t: Table, keys: seq<Key>, at: int, facts: seq<Option<Fact>>)
    requires UnitsOk(units) && i <= |units| && SectionsOk(SectionsOf(units[i..], table))
    requires Answered(SectionsOf(units[i..], table), t, keys, at, facts) && forall a | 0 <= a < |keys| ::
      keys[a].table == table
    requires i == 0 || forall a | 0 <= a < |facts| :: facts[a].Some?
    ensures |facts| == |keys| && forall a | 0 <= a < |keys| :: facts[a] == Predecessor(AllFacts(units, t, keys[a]), at)
  {
    hide UnitOk, SectionOk, Predecessor, SealedFacts;
    Sequences.Cut(units, i);
    SectionsConcat(units[..i], units[i..], table);
    SectionsOfOk(units[..i], table);
    SectionsOfOk(units, table);
    if i == 0 { assert units[..0] == [] && SectionsOf([], table) == []; }
    AnsweredAll(SectionsOf(units[..i], table), SectionsOf(units[i..], table), t, keys, at, facts);
  }

  lemma SaneSuffix(units: seq<Unit>, i: nat, table: nat, t: Table)
    requires UnitsOk(units) && i < |units| && Sane(units, table, t)
    ensures Acceptable(TableSections(units[i].sections, table), SectionsOf(units[i + 1..], table), t)
  {
    hide UnitOk, SectionOk, VersionKnown, Chain, TableSections, SectionsOf, Acceptable, AllKnown;
    UnitFirst(units, i, table);
    Sequences.Cut(units, i);
    SectionsConcat(units[..i], units[i..], table);
    SectionsOfOk(units, table);
    AcceptablePart(SectionsOf(units[..i], table), TableSections(units[i].sections, table),
                   SectionsOf(units[i + 1..], table), t);
  }

  lemma AcceptablePart(a: seq<Section>, b: seq<Section>, c: seq<Section>, t: Table)
    requires var all := a + (b + c);
      && Chain(all) && AllKnown(t, all) && SectionsOk(all)
      && (all != [] && t.firstRow.Some? ==> Last(all).maxTs < t.firstRow.value)
    ensures Acceptable(b, c, t)
  {
    hide SectionOk, VersionKnown;
    var all, rest := a + (b + c), b + c;
    forall x, y | 0 <= x < y < |rest| ensures rest[x].maxTs < rest[y].minTs {
      assert all[|a| + x] == rest[x] && all[|a| + y] == rest[y];
    }
    forall x | 0 <= x < |b| ensures VersionKnown(t, b[x]) && (t.firstRow.Some? ==> b[x].maxTs < t.firstRow.value) {
      assert all[|a| + x] == b[x] && SectionOk(Last(all));
      SectionOrder(Last(all));
    }
  }
}
