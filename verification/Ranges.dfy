/** Planning and visiting a time range: every fact of each key in it, once, in order. */
module Ranges {
  import opened Prelude
  import opened Cells
  import opened Catalog
  import opened Lookups
  import Sequences

  datatype Visit = Visit(index: nat, fact: Fact)

  /** The facts that one key was visited with. */
  function VisitsOf(visits: seq<Visit>, index: nat): seq<Fact> {
    if visits == [] then [] else
    VisitsOf(visits[..|visits| - 1], index) + (if Last(visits).index == index then [Last(visits).fact] else [])
  }

  lemma {:induction false} VisitsConcat(a: seq<Visit>, b: seq<Visit>, index: nat)
    ensures VisitsOf(a + b, index) == VisitsOf(a, index) + VisitsOf(b, index)
    decreases |b|
  {
    if b == [] {
      Sequences.Neutral(a);
      Sequences.Neutral(VisitsOf(a, index));
    } else {
      var n := |b| - 1;
      assert Last(a + b) == Last(b) && (a + b)[..|a + b| - 1] == a + b[..n];
      VisitsConcat(a, b[..n], index);
      Sequences.Associative(VisitsOf(a, index), VisitsOf(b[..n], index),
                            if b[n].index == index then [b[n].fact] else []);
    }
  }

  // ----------------------------------------------------------------- planning

  predicate Meets(s: Section, start: int, end: int) { s.minTs < end && start <= s.maxTs }

  /** The sections that a range meets, in order. */
  function Meeting(ss: seq<Section>, start: int, end: int): seq<Section> {
    if ss == [] then [] else
    Meeting(ss[..|ss| - 1], start, end) + (if Meets(Last(ss), start, end) then [Last(ss)] else [])
  }

  lemma MeetingSnoc(ss: seq<Section>, s: Section, start: int, end: int)
    ensures Meeting(ss + [s], start, end) == Meeting(ss, start, end) + (if Meets(s, start, end) then [s] else [])
  {
    Sequences.Unsnoc(ss, s);
  }

  lemma {:induction false} MeetingConcat(a: seq<Section>, b: seq<Section>, start: int, end: int)
    ensures Meeting(a + b, start, end) == Meeting(a, start, end) + Meeting(b, start, end)
    decreases |b|
  {
    hide Meets;
    if b == [] {
      Sequences.Neutral(a);
      Sequences.Neutral(Meeting(a, start, end));
    } else {
      var n := |b| - 1;
      MeetingConcat(a, b[..n], start, end);
      Sequences.Snoc(b);
      Sequences.Associative(a, b[..n], [b[n]]);
      MeetingSnoc(a + b[..n], b[n], start, end);
      Sequences.Associative(Meeting(a, start, end), Meeting(b[..n], start, end),
                            if Meets(b[n], start, end) then [b[n]] else []);
    }
  }

  // Sections that lie outside the range are not planned.
  lemma {:induction false} MeetingNone(seen: seq<Section>, more: seq<Section>, start: int, end: int)
    requires forall s | s in more :: !Meets(s, start, end)
    ensures Meeting(seen + more, start, end) == Meeting(seen, start, end)
    decreases |more|
  {
    if more == [] {
      Sequences.Neutral(seen);
    } else {
      var n := |more| - 1;
      MeetingNone(seen, more[..n], start, end);
      Sequences.Snoc(more);
      Sequences.Associative(seen, more[..n], [more[n]]);
      assert more[n] in more;
      MeetingSnoc(seen + more[..n], more[n], start, end);
    }
  }

  // What is not in order in a prefix is not in order.
  lemma MeetingPrefix(a: seq<Section>, b: seq<Section>, start: int, end: int)
    ensures Chain(Meeting(a + b, start, end)) ==> Chain(Meeting(a, start, end))
  {
    MeetingConcat(a, b, start, end);
    ChainTake(Meeting(a, start, end), Meeting(b, start, end));
  }

  // The plan so far answers for the sections so far.
  ghost predicate Planned(plan: seq<Section>, seen: seq<Section>, table: nat, start: int, end: int)
    requires SectionsOk(plan) && SectionsOk(seen)
  {
    forall k: Key | k.table == table ::
      InRange(SealedFacts(plan, k), start, end) == InRange(SealedFacts(seen, k), start, end)
  }

  lemma PlannedMore(plan: seq<Section>, seen: seq<Section>, s: Section, table: nat, start: int, end: int)
    requires SectionsOk(plan) && SectionsOk(seen) && SectionOk(s) && Planned(plan, seen, table, start, end)
    ensures SectionsOk(plan + [s]) && SectionsOk(seen + [s]) && Planned(plan + [s], seen + [s], table, start, end)
    ensures s.maxTs < start || end <= s.minTs ==> Planned(plan, seen + [s], table, start, end)
  {
    hide SectionOk, SectionFacts, InRange, SealedFacts;
    assert SectionsOk(plan + [s]) && SectionsOk(seen + [s]);
    forall k: Key | k.table == table
      ensures InRange(SealedFacts(plan + [s], k), start, end) == InRange(SealedFacts(seen + [s], k), start, end)
      ensures s.maxTs < start || end <= s.minTs ==>
        InRange(SealedFacts(plan, k), start, end) == InRange(SealedFacts(seen + [s], k), start, end)
    {
      SealedOne(s, k);
      SealedConcat(plan, [s], k);
      SealedConcat(seen, [s], k);
      InRangeConcat(SealedFacts(plan, k), SectionFacts(s, k), start, end);
      InRangeConcat(SealedFacts(seen, k), SectionFacts(s, k), start, end);
      if s.maxTs < start || end <= s.minTs {
        SectionWithin(s, k);
        InRangeNone(SectionFacts(s, k), start, end);
        Sequences.Neutral(InRange(SealedFacts(plan, k), start, end));
      }
    }
  }

  lemma ChainSnoc(plan: seq<Section>, s: Section)
    requires SectionsOk(plan) && Chain(plan) && (plan != [] ==> Precedes(Last(plan), s))
    ensures Chain(plan + [s])
  {
    hide SectionOk;
    var all := plan + [s];
    forall i, j | 0 <= i < j < |all| ensures all[i].maxTs < all[j].minTs {
      if j == |plan| && i < j - 1 {
        assert SectionOk(Last(plan));
        SectionOrder(Last(plan));
      }
    }
  }

  // The sections of one unit that meet the range, added to the plan in order.
  method PlanUnit(sections: seq<Section>, table: nat, start: I64, end: I64, before: seq<Section>,
                  ghost seen: seq<Section>)
    returns (r: Result<seq<Section>>)
    requires SectionsOk(sections) && SectionsOk(before) && SectionsOk(seen) && Chain(before)
    requires Planned(before, seen, table, start, end) && before == Meeting(seen, start, end)
    requires forall s | s in before :: s in seen
    ensures SectionsOk(seen + sections)
    ensures r.Ok? ==> SectionsOk(r.value) && Chain(r.value) && Planned(r.value, seen + sections, table, start, end)
    ensures r.Ok? ==> forall s | s in r.value :: s in seen + sections
    ensures r.Ok? ==> r.value == Meeting(seen + sections, start, end)
    ensures r.Err? ==> !Chain(seen + sections) && !Chain(Meeting(seen + sections, start, end))
  {
    hide SectionOk, Planned, Chain, Meeting;
    var plan := before;
    Sequences.Neutral(seen);
    Sequences.Neutral(sections);
    SectionsJoin(seen, sections);
    for j := 0 to |sections|
      invariant SectionsOk(plan) && SectionsOk(seen + sections[..j]) && Chain(plan)
      invariant Planned(plan, seen + sections[..j], table, start, end)
      invariant forall s | s in plan :: s in seen + sections[..j]
      invariant plan == Meeting(seen + sections[..j], start, end)
    {
      var s := sections[j];
      Sequences.Around(sections, j);
      Sequences.Associative(seen, sections[..j], [s]);
      PlannedMore(plan, seen + sections[..j], s, table, start, end);
      MeetingSnoc(seen + sections[..j], s, start, end);
      if s.minTs < end && s.maxTs >= start {
        if plan != [] && !Precedes(Last(plan), s) {
          NotChained(seen + sections[..j], s, Last(plan), seen + sections, j);
          NotChained(plan, s, Last(plan), plan + [s], j);
          Sequences.Associative(seen, sections[..j + 1], sections[j + 1..]);
          MeetingPrefix(seen + sections[..j + 1], sections[j + 1..], start, end);
          return Err(Corruption);
        }
        ChainSnoc(plan, s);
        plan := plan + [s];
      }
    }
    return Ok(plan);
  }

  lemma SectionsJoin(a: seq<Section>, b: seq<Section>)
    requires SectionsOk(a) && SectionsOk(b)
    ensures SectionsOk(a + b)
  {
    hide SectionOk;
  }

  lemma NotChained(seen: seq<Section>, s: Section, last: Section, all: seq<Section>, j: nat)
    requires last in seen && SectionsOk(seen) && !Precedes(last, s) && |seen| < |all| && all[..|seen| + 1] == seen + [s]
    ensures !Chain(all)
  {
    hide SectionOk;
    var i :| 0 <= i < |seen| && seen[i] == last;
    assert all[..|seen| + 1][i] == last && all[..|seen| + 1][|seen|] == s;
    SectionOrder(last);
    var end, begin := all[i].maxTs, all[|seen|].minTs;
    assert Chain(all) ==> end < begin;
  }

  /** The sections that a range query reads: all that can hold a fact of it, in order. */
  method Plan(units: seq<Unit>, table: nat, start: I64, end: I64) returns (r: Result<seq<Section>>)
    requires UnitsOk(units)
    ensures SectionsOk(SectionsOf(units, table))
    ensures r.Ok? ==> start <= end && SectionsOk(r.value) && Chain(r.value) && Planned(r.value,
                                                                                       SectionsOf(units, table), table,
                                                                                       start, end)
    ensures r.Ok? ==> forall s | s in r.value :: s in SectionsOf(units, table)
    ensures r.Ok? ==> r.value == if start == end then [] else Meeting(SectionsOf(units, table), start, end)
    ensures r.Err? ==> !UnitsSorted(units) || start > end || !Chain(SectionsOf(units, table))
    ensures r.Err? ==> !UnitsSorted(units) || start > end || !Chain(Meeting(SectionsOf(units, table), start, end))
  {
    hide SectionOk, UnitOk, Planned, Chain, UnitsSorted, Meeting;
    SectionsOfOk(units, table);
    var _ :- ValidateUnits(units);
    if start > end { return Err(Invalid); }
    NothingPlanned(SectionsOf(units, table), table, start, end);
    NothingMeets(start, end);
    if start == end { return Ok([]); }
    var upper := UpperUnit(units, end - 1);
    var plan: seq<Section> := [];
    for i := 0 to upper
      invariant SectionsOk(SectionsOf(units[..i], table)) && SectionsOk(plan) && Chain(plan)
      invariant Planned(plan, SectionsOf(units[..i], table), table, start, end)
      invariant forall s | s in plan :: s in SectionsOf(units[..i], table)
      invariant plan == Meeting(SectionsOf(units[..i], table), start, end)
    {
      UnitLast(units, i, table);
      SectionsOfOk(units[..i + 1], table);
      ghost var seen := SectionsOf(units[..i], table);
      var sections := TableSections(units[i].sections, table);
      SectionsParts(seen, sections);
      if units[i].maxTs < start {
        OutsideUnit(units[i], plan, seen, table, start, end);
        UnmetUnit(units[i], seen, table, start, end);
      } else {
        var planned := PlanUnit(sections, table, start, end, plan, seen);
        if planned.Err? {
          PrefixChain(units, i + 1, table);
          Sequences.Cut(units, i + 1);
          SectionsConcat(units[..i + 1], units[i + 1..], table);
          MeetingPrefix(SectionsOf(units[..i + 1], table), SectionsOf(units[i + 1..], table), start, end);
          return Err(planned.error);
        }
        plan := planned.value;
      }
    }
    LaterRest(units, upper, plan, table, start, end);
    UnmetRest(units, upper, table, start, end);
    Sequences.Cut(units, upper);
    SectionsConcat(units[..upper], units[upper..], table);
    return Ok(plan);
  }

  lemma NothingMeets(start: int, end: int)
    ensures Meeting([], start, end) == []
  {
  }

  lemma UnmetUnit(u: Unit, seen: seq<Section>, table: nat, start: int, end: int)
    requires UnitOk(u) && (u.maxTs < start || end <= u.minTs)
    ensures Meeting(seen + TableSections(u.sections, table), start, end) == Meeting(seen, start, end)
  {
    hide SectionOk, Meeting;
    var more := TableSections(u.sections, table);
    TableSectionsOk(u.sections, table);
    forall s | s in more ensures !Meets(s, start, end) { assert s in u.sections; }
    MeetingNone(seen, more, start, end);
  }

  lemma NothingPlanned(seen: seq<Section>, table: nat, start: int, end: int)
    requires SectionsOk(seen)
    ensures Planned([], [], table, start, end) && Chain([])
    ensures start == end ==> Planned([], seen, table, start, end)
  {
    hide SectionOk;
    if start == end {
      forall k: Key | k.table == table
        ensures InRange(SealedFacts([], k), start, end) == InRange(SealedFacts(seen, k), start, end)
      {
        InRangeNone(SealedFacts(seen, k), start, end);
      }
    }
  }

  lemma UnitLast(units: seq<Unit>, i: nat, table: nat)
    requires i < |units|
    ensures SectionsOf(units[..i + 1], table) == SectionsOf(units[..i], table) + TableSections(units[i].sections, table)
  {
    assert units[..i + 1][..i] == units[..i] && Last(units[..i + 1]) == units[i];
  }

  lemma PrefixChain(units: seq<Unit>, i: nat, table: nat)
    requires i <= |units| && !Chain(SectionsOf(units[..i], table))
    ensures !Chain(SectionsOf(units, table))
  {
    Sequences.Cut(units, i);
    SectionsConcat(units[..i], units[i..], table);
    ChainTake(SectionsOf(units[..i], table), SectionsOf(units[i..], table));
  }

  lemma ChainTake(a: seq<Section>, b: seq<Section>)
    ensures Chain(a + b) ==> Chain(a)
  {
    forall i, j | Chain(a + b) && 0 <= i < j < |a|
      ensures a[i].maxTs < a[j].minTs
    {
      assert (a + b)[i] == a[i] && (a + b)[j] == a[j];
    }
  }

  // Sections that lie outside the range change nothing.
  lemma {:induction false} Outside(plan: seq<Section>, seen: seq<Section>, more: seq<Section>, table: nat, start: int,
                                   end: int)
    requires SectionsOk(plan) && SectionsOk(seen) && SectionsOk(more) && Planned(plan, seen, table, start, end)
    requires forall s | s in more :: s.maxTs < start || end <= s.minTs
    ensures SectionsOk(seen + more) && Planned(plan, seen + more, table, start, end)
    decreases |more|
  {
    hide SectionOk, Planned;
    SectionsJoin(seen, more);
    if more == [] {
      Sequences.Neutral(seen);
    } else {
      var n := |more| - 1;
      Outside(plan, seen, more[..n], table, start, end);
      Sequences.Snoc(more);
      Sequences.Associative(seen, more[..n], [more[n]]);
      assert more[n] in more;
      PlannedMore(plan, seen + more[..n], more[n], table, start, end);
    }
  }

  lemma OutsideUnit(u: Unit, plan: seq<Section>, seen: seq<Section>, table: nat, start: int, end: int)
    requires UnitOk(u) && (u.maxTs < start || end <= u.minTs)
    requires SectionsOk(plan) && SectionsOk(seen) && Planned(plan, seen, table, start, end)
    ensures SectionsOk(seen + TableSections(u.sections, table))
    ensures Planned(plan, seen + TableSections(u.sections, table), table, start, end)
  {
    hide SectionOk, Planned;
    var more := TableSections(u.sections, table);
    TableSectionsOk(u.sections, table);
    forall i | 0 <= i < |more| ensures SectionOk(more[i]) { assert more[i] in more; }
    forall s | s in more ensures s.maxTs < start || end <= s.minTs { assert s in u.sections; }
    Outside(plan, seen, more, table, start, end);
  }

  lemma {:induction false} UnmetRest(units: seq<Unit>, i: nat, table: nat, start: int, end: int)
    requires UnitsOk(units) && i <= |units| && (forall a | i <= a < |units| :: end <= units[a].minTs)
    ensures Meeting(SectionsOf(units, table), start, end) == Meeting(SectionsOf(units[..i], table), start, end)
    decreases |units| - i
  {
    hide SectionOk, UnitOk, Meeting;
    if i == |units| {
      Sequences.Neutral(units);
    } else {
      UnitLast(units, i, table);
      UnmetUnit(units[i], SectionsOf(units[..i], table), table, start, end);
      UnmetRest(units, i + 1, table, start, end);
    }
  }

  // Units that begin after the range change nothing.
  lemma {:induction false} LaterRest(units: seq<Unit>, i: nat, plan: seq<Section>, table: nat, start: int, end: int)
    requires UnitsOk(units) && i <= |units| && (forall a | i <= a < |units| :: end <= units[a].minTs)
    requires SectionsOk(plan) && SectionsOk(SectionsOf(units[..i], table))
    requires Planned(plan, SectionsOf(units[..i], table), table, start, end)
    ensures SectionsOk(SectionsOf(units, table)) && Planned(plan, SectionsOf(units, table), table, start, end)
    decreases |units| - i
  {
    hide SectionOk, UnitOk, Planned;
    if i == |units| {
      Sequences.Neutral(units);
    } else {
      UnitLast(units, i, table);
      OutsideUnit(units[i], plan, SectionsOf(units[..i], table), table, start, end);
      LaterRest(units, i + 1, plan, table, start, end);
    }
  }

  // ----------------------------------------------------------------- visiting

  /** Visits the cells of one column that lie in the range. */
  method VisitColumn(timestamps: seq<I64>, cells: seq<Option<Cell>>, index: nat, start: int, end: int)
    returns (visits: seq<Visit>)
    requires |timestamps| == |cells|
    ensures VisitsOf(visits, index) == InRange(Picked(timestamps, cells), start, end)
    ensures forall other: nat | other != index :: VisitsOf(visits, other) == []
  {
    visits := [];
    for n := 0 to |cells|
      invariant VisitsOf(visits, index) == InRange(Picked(timestamps[..n], cells[..n]), start, end)
      invariant forall other: nat | other != index :: VisitsOf(visits, other) == []
    {
      PickedNext(timestamps, cells, n, start, end);
      if start <= timestamps[n] < end && cells[n].Some? {
        VisitsNext(visits, Visit(index, Fact(timestamps[n], cells[n].value)));
        visits := visits + [Visit(index, Fact(timestamps[n], cells[n].value))];
      } else {
        Sequences.Neutral(InRange(Picked(timestamps[..n], cells[..n]), start, end));
      }
    }
    Sequences.Neutral(cells);
    Sequences.Neutral(timestamps);
  }

  lemma VisitsNext(visits: seq<Visit>, v: Visit)
    ensures forall i: nat :: VisitsOf(visits + [v], i) == VisitsOf(visits, i) + (if v.index == i then [v.fact] else [])
  {
    Sequences.Unsnoc(visits, v);
  }

  lemma PickedNext(timestamps: seq<I64>, cells: seq<Option<Cell>>, n: nat, start: int, end: int)
    requires |timestamps| == |cells| && n < |cells|
    ensures InRange(Picked(timestamps[..n + 1], cells[..n + 1]), start, end) ==
            InRange(Picked(timestamps[..n], cells[..n]), start, end)
            + (if start <= timestamps[n] < end && cells[n].Some? then [Fact(timestamps[n], cells[n].value)] else [])
  {
    assert timestamps[..n + 1][..n] == timestamps[..n] && cells[..n + 1][..n] == cells[..n];
    var before := Picked(timestamps[..n], cells[..n]);
    match cells[n] {
      case None =>
        Sequences.Neutral(before);
        Sequences.Neutral(InRange(before, start, end));
      case Some(v) => Sequences.Unsnoc(before, Fact(timestamps[n], v));
    }
  }

  // What the columns seen so far hold of a key in the range.
  function RangeOf(s: Section, columns: seq<Column>, k: Key, start: int, end: int): seq<Fact>
    requires forall i | 0 <= i < |columns| :: |columns[i].cells| == |s.timestamps|
  {
    ColumnOfSize(columns, |s.timestamps|, k.series, k.field);
    match ColumnOf(columns, k.series, k.field) case None => [] case Some(c) => InRange(Picked(s.timestamps, c.cells),
                                                                                       start, end)
  }

  /** Visits one section: for every key, its facts in the range, in order. */
  method VisitSection(s: Section, table: nat, keys: seq<Key>, start: int, end: int) returns (visits: seq<Visit>)
    requires SectionOk(s) && Increasing(keys) && forall i | 0 <= i < |keys| :: keys[i].table == table
    ensures forall i | 0 <= i < |keys| :: VisitsOf(visits, i) == InRange(SectionFacts(s, keys[i]), start, end)
  {
    visits := [];
    for c := 0 to |s.columns|
      invariant forall i | 0 <= i < |keys| :: VisitsOf(visits, i) == RangeOf(s, s.columns[..c], keys[i], start, end)
    {
      var column := s.columns[c];
      ColumnAbsent(s.columns, c, |s.timestamps|);
      forall i | 0 <= i < |keys|
        ensures ColumnOf(s.columns[..c + 1], keys[i].series, keys[i].field) ==
                if column.series == keys[i].series && column.field == keys[i].field then Some(column)
                else ColumnOf(s.columns[..c], keys[i].series, keys[i].field)
      {
        ColumnNext(s.columns, c, keys[i].series, keys[i].field);
      }
      var index := IndexOf(keys, Key(table, column.series, column.field));
      if index.Some? {
        KeyOnce(keys, index.value, Key(table, column.series, column.field));
        var more := VisitColumn(s.timestamps, column.cells, index.value, start, end);
        VisitedMore(visits, more, keys);
        visits := visits + more;
      }
    }
    Sequences.Neutral(s.columns);
  }

  lemma VisitedMore(visits: seq<Visit>, more: seq<Visit>, keys: seq<Key>)
    ensures forall i: nat :: VisitsOf(visits + more, i) == VisitsOf(visits, i) + VisitsOf(more, i)
    ensures forall i: nat | VisitsOf(more, i) == [] :: VisitsOf(visits + more, i) == VisitsOf(visits, i)
    ensures forall i: nat | VisitsOf(visits, i) == [] :: VisitsOf(visits + more, i) == VisitsOf(more, i)
  {
    hide VisitsOf;
    forall i: nat
      ensures VisitsOf(visits + more, i) == VisitsOf(visits, i) + VisitsOf(more, i)
      ensures VisitsOf(more, i) == [] ==> VisitsOf(visits + more, i) == VisitsOf(visits, i)
      ensures VisitsOf(visits, i) == [] ==> VisitsOf(visits + more, i) == VisitsOf(more, i)
    {
      VisitsConcat(visits, more, i);
      Sequences.Neutral(VisitsOf(visits, i));
      Sequences.Neutral(VisitsOf(more, i));
    }
  }

  /** The postings of a range: a slice between two binary searches. */
  method TailRange(fs: seq<Fact>, start: int, end: int) returns (facts: seq<Fact>)
    requires Ascending(fs) && start <= end
    ensures facts == InRange(fs, start, end)
  {
    var first := UpperBound(fs, start - 1);
    var last := UpperBound(fs, end - 1);
    assert first > 0 ==> fs[first - 1].ts <= end - 1;
    SliceIsRange(fs, first, last, start, end);
    return fs[first..last];
  }

  lemma SliceIsRange(fs: seq<Fact>, first: nat, last: nat, start: int, end: int)
    requires first <= last <= |fs| && (forall i | 0 <= i < first :: fs[i].ts < start)
    requires (forall i | first <= i < last :: start <= fs[i].ts < end) && forall i | last <= i < |fs| :: end <= fs[i].ts
    ensures fs[first..last] == InRange(fs, start, end)
  {
    hide InRange;
    var a, b, c := fs[..first], fs[first..last], fs[last..];
    assert fs == a + (b + c);
    InRangeConcat(a, b + c, start, end);
    InRangeConcat(b, c, start, end);
    InRangeNone(a, start, end);
    InRangeNone(c, start, end);
    InRangeAll(b, start, end);
    Sequences.Neutral(b);
  }

  lemma {:induction false} InRangeAll(fs: seq<Fact>, start: int, end: int)
    requires forall i | 0 <= i < |fs| :: start <= fs[i].ts < end
    ensures InRange(fs, start, end) == fs
    decreases |fs|
  {
    if fs != [] {
      InRangeAll(fs[..|fs| - 1], start, end);
      Sequences.Snoc(fs);
    }
  }

  method VisitTail(t: Table, keys: seq<Key>, start: int, end: int) returns (visits: seq<Visit>)
    requires TableOk(t) && start <= end
    ensures forall i | 0 <= i < |keys| :: VisitsOf(visits, i) == InRange(TailOf(t, keys[i]), start, end)
  {
    hide InRange;
    visits := [];
    for n := 0 to |keys|
      invariant forall i | 0 <= i < n :: VisitsOf(visits, i) == InRange(TailOf(t, keys[i]), start, end)
      invariant forall i: nat | n <= i :: VisitsOf(visits, i) == []
    {
      var facts := TailRange(TailOf(t, keys[n]), start, end);
      var more := VisitList(facts, n);
      VisitedMore(visits, more, keys);
      visits := visits + more;
    }
  }

  method VisitList(facts: seq<Fact>, index: nat) returns (visits: seq<Visit>)
    ensures VisitsOf(visits, index) == facts && forall other: nat | other != index :: VisitsOf(visits, other) == []
  {
    visits := [];
    for n := 0 to |facts|
      invariant VisitsOf(visits, index) == facts[..n] && forall other: nat | other != index ::
        VisitsOf(visits, other) == []
    {
      Sequences.Around(facts, n);
      VisitsNext(visits, Visit(index, facts[n]));
      visits := visits + [Visit(index, facts[n])];
    }
    Sequences.Neutral(facts);
  }

  // Each key was visited with exactly its facts of these sections.
  ghost predicate Visited(visits: seq<Visit>, ss: seq<Section>, keys: seq<Key>, start: int, end: int)
    requires SectionsOk(ss)
  {
    forall i | 0 <= i < |keys| :: VisitsOf(visits, i) == InRange(SealedFacts(ss, keys[i]), start, end)
  }

  /** Visits the planned sections in order; it fails only for an unknown version. */
  method VisitPlanned(plan: seq<Section>, table: nat, t: Table, keys: seq<Key>, start: int, end: int)
    returns (r: Result<seq<Visit>>)
    requires SectionsOk(plan) && Increasing(keys) && forall i | 0 <= i < |keys| :: keys[i].table == table
    ensures r.Ok? <==> AllKnown(t, plan)
    ensures r.Ok? ==> Visited(r.value, plan, keys, start, end)
  {
    hide SectionOk, VersionKnown, SealedFacts, SectionFacts, InRange, VisitsOf;
    var visits: seq<Visit> := [];
    VisitedNone(keys, start, end);
    for n := 0 to |plan|
      invariant AllKnown(t, plan[..n]) && SectionsOk(plan[..n]) && Visited(visits, plan[..n], keys, start, end)
    {
      if !VersionKnown(t, plan[n]) { return Err(Corruption); }
      var more := VisitSection(plan[n], table, keys, start, end);
      VisitedSection(visits, more, plan, n, keys, start, end);
      visits := visits + more;
    }
    Sequences.Neutral(plan);
    return Ok(visits);
  }

  lemma VisitedNone(keys: seq<Key>, start: int, end: int)
    ensures Visited([], [], keys, start, end)
  {
  }

  lemma VisitedSection(visits: seq<Visit>, more: seq<Visit>, plan: seq<Section>, n: nat, keys: seq<Key>, start: int,
                       end: int)
    requires SectionsOk(plan) && n < |plan| && Visited(visits, plan[..n], keys, start, end)
    requires forall i | 0 <= i < |keys| :: VisitsOf(more, i) == InRange(SectionFacts(plan[n], keys[i]), start, end)
    ensures Visited(visits + more, plan[..n + 1], keys, start, end)
  {
    hide SectionOk, SectionFacts, InRange, VisitsOf;
    assert plan[..n + 1][..n] == plan[..n] && Last(plan[..n + 1]) == plan[n];
    forall i | 0 <= i < |keys|
      ensures VisitsOf(visits + more, i) == InRange(SealedFacts(plan[..n + 1], keys[i]), start, end)
    {
      VisitsConcat(visits, more, i);
      InRangeConcat(SealedFacts(plan[..n], keys[i]), SectionFacts(plan[n], keys[i]), start, end);
    }
  }

  /**
   Visits every fact of each key in the range: exactly those, once, in strictly increasing
   time, with no section skipped that holds one. It fails only where the catalog is not sane.
   */
  method VisitFacts(units: seq<Unit>, tables: map<nat, Table>, keys: seq<Key>, start: I64, end: I64)
    returns (r: Result<seq<Visit>>)
    requires UnitsOk(units) && TablesOk(tables)
    ensures keys == [] ==> r == Ok([])
    ensures r.Ok? && keys != [] ==> GroupOk(tables, keys[0].table, keys) && start <= end
    ensures r.Ok? ==> forall i | 0 <= i < |keys| ::
      && VisitsOf(r.value, i) == InRange(AllFacts(units, tables[keys[0].table], keys[i]), start, end)
      && Ascending(VisitsOf(r.value, i))
    ensures r.Err? ==> keys != []
    ensures r.Err? ==>
      (!GroupOk(tables, keys[0].table, keys) || start > end || !UnitsSorted(units)
       || !Sane(units, keys[0].table, tables[keys[0].table]))
  {
    hide SectionOk, UnitOk, VersionKnown, InRange, VisitsOf, Planned, Visited, Chain, UnitsSorted, TableOk, AllFacts,
         Sane;
    if keys == [] { return Ok([]); }
    var table := keys[0].table;
    var _ :- ValidateGroup(tables, table, keys);
    var t := tables[table];
    var planned := Plan(units, table, start, end);
    if planned.Err? {
      SaneChain(units, table, t);
      return Err(planned.error);
    }
    var plan := planned.value;
    if plan != [] && t.firstRow.Some? && Last(plan).maxTs >= t.firstRow.value {
      NotJoined(units, table, t, plan);
      return Err(Corruption);
    }
    var sealed := VisitPlanned(plan, table, t, keys, start, end);
    if sealed.Err? {
      UnknownSection(units, table, t, plan);
      return Err(sealed.error);
    }
    var tail := VisitTail(t, keys, start, end);
    VisitedAll(units, table, t, keys, plan, start, end, sealed.value, tail);
    return Ok(sealed.value + tail);
  }

  lemma SaneChain(units: seq<Unit>, table: nat, t: Table)
    ensures Sane(units, table, t) ==> Chain(SectionsOf(units, table))
  {
    hide Chain, SectionsOf, VersionKnown;
  }

  lemma NotJoined(units: seq<Unit>, table: nat, t: Table, plan: seq<Section>)
    requires plan != [] && Last(plan) in SectionsOf(units, table) && t.firstRow.Some?
    requires Last(plan).maxTs >= t.firstRow.value
    requires SectionsOk(SectionsOf(units, table))
    ensures !Sane(units, table, t)
  {
    hide SectionsOf, VersionKnown, SectionOk;
    var ss := SectionsOf(units, table);
    var i :| 0 <= i < |ss| && ss[i] == Last(plan);
    assert SectionOk(Last(ss));
    SectionOrder(Last(ss));
  }

  lemma UnknownSection(units: seq<Unit>, table: nat, t: Table, plan: seq<Section>)
    requires !AllKnown(t, plan) && forall s | s in plan :: s in SectionsOf(units, table)
    ensures !Sane(units, table, t)
  {
    hide SectionsOf, VersionKnown, Chain;
    var i :| 0 <= i < |plan| && !VersionKnown(t, plan[i]);
    assert plan[i] in SectionsOf(units, table);
  }

  lemma VisitedAll(units: seq<Unit>, table: nat, t: Table, keys: seq<Key>, plan: seq<Section>, start: int, end: int,
                   sealed: seq<Visit>, tail: seq<Visit>)
    requires UnitsOk(units) && TableOk(t) && SectionsOk(plan) && SectionsOk(SectionsOf(units, table)) && Chain(plan)
    requires forall i | 0 <= i < |keys| :: keys[i].table == table
    requires Planned(plan, SectionsOf(units, table), table, start, end) && Visited(sealed, plan, keys, start, end)
    requires forall i | 0 <= i < |keys| :: VisitsOf(tail, i) == InRange(TailOf(t, keys[i]), start, end)
    requires plan != [] && t.firstRow.Some? ==> Last(plan).maxTs < t.firstRow.value
    ensures forall i | 0 <= i < |keys| ::
      && VisitsOf(sealed + tail, i) == InRange(AllFacts(units, t, keys[i]), start, end)
      && Ascending(VisitsOf(sealed + tail, i))
  {
    hide SectionOk, UnitOk, InRange, VisitsOf, SealedFacts, SectionsOf;
    forall i | 0 <= i < |keys|
      ensures VisitsOf(sealed + tail, i) == InRange(AllFacts(units, t, keys[i]), start, end)
      ensures Ascending(VisitsOf(sealed + tail, i))
    {
      var k := keys[i];
      VisitsConcat(sealed, tail, i);
      InRangeConcat(SealedFacts(SectionsOf(units, table), k), TailOf(t, k), start, end);
      InRangeConcat(SealedFacts(plan, k), TailOf(t, k), start, end);
      SealedAscending(plan, k);
      AscendingConcat(SealedFacts(plan, k), TailOf(t, k));
      InRangeAscends(SealedFacts(plan, k) + TailOf(t, k), start, end);
    }
  }
}
