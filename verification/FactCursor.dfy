/**
 The incremental form of a range read: a cursor that delivers one fact at each call, loading
 a section only when the facts before it are used up.
 */
module FactCursors {
  import opened Prelude
  import opened Catalog
  import opened Lookups
  import opened Ranges
  import Sequences

  // Every fact of a list is newer than what was delivered last.
  predicate After(last: Option<I64>, facts: seq<Fact>) { last.Some? ==> forall f | f in facts :: last.value < f.ts }

  class FactCursor {
    const table: Table
    const key: Key
    const start: I64
    const end: I64
    var planned: seq<Section>
    var nextSection: nat
    var current: seq<Fact>
    var currentIndex: nat
    var tail: seq<Fact>
    var tailIndex: nat
    var lastEmitted: Option<I64>
    var failed: bool
    // The facts delivered so far.
    ghost var delivered: seq<Fact>

    ghost predicate Valid()
      reads this
    {
      && nextSection <= |planned| && currentIndex <= |current| && tailIndex <= |tail| && SectionsOk(planned)
      && (!failed ==> Ascending(Rest()) && After(lastEmitted, Rest()))
    }

    // The facts of the sections that are not loaded yet.
    ghost function Unloaded(): seq<Fact>
      requires nextSection <= |planned| && SectionsOk(planned)
      reads this
    {
      InRange(SealedFacts(planned[nextSection..], key), start, end)
    }

    /** The facts that are still to come. */
    ghost function Rest(): seq<Fact>
      requires nextSection <= |planned| && currentIndex <= |current| && tailIndex <= |tail| && SectionsOk(planned)
      reads this
    {
      current[currentIndex..] + Unloaded() + tail[tailIndex..]
    }

    // Every section left to load is of a known version.
    ghost predicate Known()
      requires nextSection <= |planned|
      reads this
    {
      AllKnown(table, planned[nextSection..])
    }

    constructor (table: Table, key: Key, start: I64, end: I64, planned: seq<Section>, tail: seq<Fact>)
      requires SectionsOk(planned) && Ascending(InRange(SealedFacts(planned, key), start, end) + tail)
      ensures Valid() && !failed && Rest() == InRange(SealedFacts(planned, key), start, end) + tail && delivered == []
      ensures this.table == table && this.key == key && this.start == start && this.end == end
      ensures AllKnown(table, planned) ==> Known()
    {
      this.table, this.key, this.start, this.end := table, key, start, end;
      this.planned, this.tail := planned, tail;
      nextSection, current, currentIndex, tailIndex, lastEmitted, failed := 0, [], 0, 0, None, false;
      delivered := [];
      new;
      Sequences.Neutral(planned);
      Sequences.Neutral(tail);
      Sequences.Neutral(InRange(SealedFacts(planned, key), start, end));
      assert current[currentIndex..] == [];
    }

    /**
     Delivers the next fact: exactly the first of those to come, or none when none is left. A
     cursor that has failed stays so, and it fails only at a section of an unknown version.
     */
    method NextFact() returns (r: Result<Option<Fact>>)
      requires Valid()
      modifies this
      ensures Valid()
      ensures old(failed) ==> failed && r.Err? && delivered == old(delivered)
      ensures !old(failed) ==> (failed <==> r.Err?) && (old(Known()) ==> r.Ok? && Known())
      ensures r.Ok? && r.value.None? ==> old(Rest()) == [] && Rest() == [] && delivered == old(delivered)
      ensures r.Ok? && r.value.Some? ==>
        old(Rest()) == [r.value.value] + Rest() && delivered == old(delivered) + [r.value.value]
      ensures r.Err? ==> delivered == old(delivered)
    {
      hide SectionOk, InRange, AllKnown, SealedFacts;
      if failed { return Err(Corruption); }
      r := Advance();
      if r.Err? { failed := true; }
    }

    method Advance() returns (r: Result<Option<Fact>>)
      requires Valid() && !failed
      modifies this
      ensures nextSection <= |planned| && currentIndex <= |current| && tailIndex <= |tail| && SectionsOk(planned)
      ensures !failed
      ensures r.Ok? ==> Valid()
      ensures old(Known()) ==> r.Ok? && Known()
      ensures r.Ok? && r.value.None? ==> old(Rest()) == [] && Rest() == [] && delivered == old(delivered)
      ensures r.Ok? && r.value.Some? ==>
        old(Rest()) == [r.value.value] + Rest() && delivered == old(delivered) + [r.value.value]
      ensures r.Err? ==> delivered == old(delivered)
    {
      hide SectionOk, InRange, AllKnown, SealedFacts, Ascending, After;
      var loaded := LoadAhead();
      if loaded.Err? { return Err(loaded.error); }
      if currentIndex < |current| {
        r := EmitCurrent();
      } else if tailIndex < |tail| {
        r := EmitTail();
      } else {
        NoneUnloaded();
        r := Ok(None);
      }
    }

    // Loads sections until one has a fact in the range.
    method LoadAhead() returns (r: Result<()>)
      requires Valid() && !failed
      modifies this
      ensures nextSection <= |planned| && currentIndex <= |current| && tailIndex <= |tail| && SectionsOk(planned)
      ensures !failed
      ensures delivered == old(delivered) && (old(Known()) ==> r.Ok? && Known())
      ensures r.Ok? ==> Valid() && Rest() == old(Rest()) && (currentIndex < |current| || nextSection == |planned|)
    {
      hide SectionOk, InRange, AllKnown, SealedFacts, Ascending, After;
      while currentIndex == |current| && nextSection < |planned|
        invariant Valid() && !failed && Rest() == old(Rest()) && delivered == old(delivered)
        invariant old(Known()) ==> Known()
        decreases |planned| - nextSection
      {
        r := LoadNext();
        if r.Err? { return; }
      }
      return Ok(());
    }

    method EmitCurrent() returns (r: Result<Option<Fact>>)
      requires Valid() && !failed && currentIndex < |current|
      modifies this
      ensures Valid() && !failed && (old(Known()) ==> Known())
      ensures r.Ok? && r.value.Some? && old(Rest()) == [r.value.value] + Rest()
      ensures delivered == old(delivered) + [r.value.value]
    {
      hide SectionOk, InRange, AllKnown, SealedFacts, Ascending, After;
      var fact := current[currentIndex];
      ghost var rest := current[currentIndex + 1..] + Unloaded() + tail[tailIndex..];
      assert current[currentIndex..] == [fact] + current[currentIndex + 1..];
      assert Rest() == [fact] + rest;
      FirstAfter(lastEmitted, fact, rest);
      currentIndex := currentIndex + 1;
      r := Emit(fact);
    }

    method EmitTail() returns (r: Result<Option<Fact>>)
      requires Valid() && !failed && currentIndex == |current| && nextSection == |planned| && tailIndex < |tail|
      modifies this
      ensures Valid() && !failed && (old(Known()) ==> Known())
      ensures r.Ok? && r.value.Some? && old(Rest()) == [r.value.value] + Rest()
      ensures delivered == old(delivered) + [r.value.value]
    {
      hide SectionOk, InRange, AllKnown, SealedFacts, Ascending, After;
      var fact := tail[tailIndex];
      NoneUnloaded();
      assert Rest() == [fact] + tail[tailIndex + 1..];
      FirstAfter(lastEmitted, fact, tail[tailIndex + 1..]);
      tailIndex := tailIndex + 1;
      assert Rest() == tail[tailIndex..];
      r := Emit(fact);
    }

    // Loads the facts of the next section that lie in the range.
    method LoadNext() returns (r: Result<()>)
      requires Valid() && !failed && currentIndex == |current| && nextSection < |planned|
      modifies this
      ensures nextSection == old(nextSection) + 1 && planned == old(planned) && SectionsOk(planned)
      ensures tailIndex == old(tailIndex) && tail == old(tail) && currentIndex <= |current| && !failed
      ensures delivered == old(delivered) && lastEmitted == old(lastEmitted)
      ensures r.Ok? ==> Rest() == old(Rest()) && Valid()
      ensures old(Known()) ==> r.Ok? && Known()
    {
      hide SectionOk, InRange, SealedFacts, VersionKnown;
      var s := planned[nextSection];
      KnownNext();
      UnloadedNext();
      nextSection := nextSection + 1;
      if !VersionKnown(table, s) { return Err(Corruption); }
      current := SectionRange(s, key, start, end);
      currentIndex := 0;
      assert current[0..] == current;
      Sequences.Associative(current, Unloaded(), tail[tailIndex..]);
      return Ok(());
    }

    // Delivers a fact if it is newer than the one before it.
    method Emit(fact: Fact) returns (r: Result<Option<Fact>>)
      requires !failed && nextSection <= |planned| && currentIndex <= |current| && tailIndex <= |tail|
      requires SectionsOk(planned)
      requires Ascending([fact] + Rest()) && After(lastEmitted, [fact])
      modifies this`lastEmitted, this`delivered
      ensures Valid() && r == Ok(Some(fact)) && delivered == old(delivered) + [fact] && Rest() == old(Rest())
    {
      hide SectionOk, InRange, SealedFacts;
      var late := lastEmitted.Some? && lastEmitted.value >= fact.ts;
      assert fact in [fact];
      RestAfter(fact, Rest());
      if late { return Err(Corruption); }
      lastEmitted := Some(fact.ts);
      delivered := delivered + [fact];
      return Ok(Some(fact));
    }

    lemma NoneUnloaded()
      requires SectionsOk(planned) && nextSection == |planned|
      ensures Unloaded() == []
    {
      assert planned[nextSection..] == [];
    }

    lemma KnownNext()
      requires nextSection < |planned|
      ensures Known() <==> VersionKnown(table, planned[nextSection]) && AllKnown(table, planned[nextSection + 1..])
    {
      hide VersionKnown;
      var all := planned[nextSection..];
      assert all == [planned[nextSection]] + planned[nextSection + 1..];
    }

    lemma UnloadedNext()
      requires SectionsOk(planned) && nextSection < |planned|
      ensures SectionsOk(planned[nextSection + 1..]) && SectionOk(planned[nextSection])
      ensures Unloaded() == InRange(SectionFacts(planned[nextSection], key), start, end)
                            + InRange(SealedFacts(planned[nextSection + 1..], key), start, end)
    {
      hide SectionOk, InRange, SealedFacts;
      var s, rest := planned[nextSection], planned[nextSection + 1..];
      assert planned[nextSection..] == [s] + rest;
      SealedOne(s, key);
      SealedConcat([s], rest, key);
      InRangeConcat(SectionFacts(s, key), SealedFacts(rest, key), start, end);
    }
  }

  lemma FirstAfter(last: Option<I64>, fact: Fact, rest: seq<Fact>)
    requires After(last, [fact] + rest)
    ensures After(last, [fact])
  {
    assert fact in [fact] + rest;
  }

  lemma RestAfter(fact: Fact, rest: seq<Fact>)
    requires Ascending([fact] + rest)
    ensures Ascending(rest) && After(Some(fact.ts), rest)
  {
    var all := [fact] + rest;
    forall i | 0 <= i < |rest| ensures rest[i] == all[i + 1] && all[0].ts < all[i + 1].ts { }
  }

  /** The facts of a key in one section that lie in the range. */
  method SectionRange(s: Section, k: Key, start: int, end: int) returns (facts: seq<Fact>)
    requires SectionOk(s)
    ensures facts == InRange(SectionFacts(s, k), start, end)
  {
    ColumnOfSize(s.columns, |s.timestamps|, k.series, k.field);
    facts := [];
    var column := ColumnOf(s.columns, k.series, k.field);
    if column.Some? {
      var cells := column.value.cells;
      for n := 0 to |cells|
        invariant facts == InRange(Picked(s.timestamps[..n], cells[..n]), start, end)
      {
        PickedNext(s.timestamps, cells, n, start, end);
        if start <= s.timestamps[n] < end && cells[n].Some? {
          facts := facts + [Fact(s.timestamps[n], cells[n].value)];
        } else {
          Sequences.Neutral(facts);
        }
      }
      Sequences.Neutral(cells);
      Sequences.Neutral(s.timestamps);
    }
  }

  /** A cursor over all facts of a key in a range. */
  method Open(units: seq<Unit>, tables: map<nat, Table>, key: Key, start: I64, end: I64) returns (r: Result<FactCursor>)
    requires UnitsOk(units) && TablesOk(tables)
    ensures r.Ok? ==> KeyOk(tables, key) && start <= end && fresh(r.value) && r.value.Valid() && !r.value.failed
    ensures r.Ok? ==>
      r.value.delivered == [] && r.value.Rest() == InRange(AllFacts(units, tables[key.table], key), start, end)
    ensures r.Ok? && Sane(units, key.table, tables[key.table]) ==> r.value.Known()
    ensures r.Err? ==> !KeyOk(tables, key) || start > end || !UnitsSorted(units) || !Sane(units, key.table,
                                                                                          tables[key.table])
  {
    hide SectionOk, UnitOk, VersionKnown, InRange, Planned, Chain, UnitsSorted, TableOk, AllFacts, Sane, SealedFacts;
    if !KeyOk(tables, key) { return Err(Invalid); }
    var t := tables[key.table];
    var planned := Plan(units, key.table, start, end);
    if planned.Err? {
      SaneChain(units, key.table, t);
      return Err(planned.error);
    }
    var plan := planned.value;
    TailAscends(t, key);
    var tail := TailRange(TailOf(t, key), start, end);
    if plan != [] && t.firstRow.Some? && Last(plan).maxTs >= t.firstRow.value {
      NotJoined(units, key.table, t, plan);
      return Err(Corruption);
    }
    PlannedFacts(units, t, key, start, end, plan);
    if !AllKnown(t, plan) { UnknownSection(units, key.table, t, plan); }
    var cursor := new FactCursor(t, key, start, end, plan, tail);
    return Ok(cursor);
  }

  lemma TailAscends(t: Table, k: Key)
    requires TableOk(t)
    ensures Ascending(TailOf(t, k))
  {
  }

  lemma PlannedFacts(units: seq<Unit>, t: Table, k: Key, start: int, end: int, plan: seq<Section>)
    requires UnitsOk(units) && TableOk(t) && SectionsOk(plan) && Chain(plan) && SectionsOk(SectionsOf(units, k.table))
    requires Planned(plan, SectionsOf(units, k.table), k.table, start, end)
    requires plan != [] && t.firstRow.Some? ==> Last(plan).maxTs < t.firstRow.value
    ensures InRange(SealedFacts(plan, k), start, end) + InRange(TailOf(t, k), start, end) ==
        InRange(AllFacts(units, t, k), start, end)
    ensures Ascending(InRange(SealedFacts(plan, k), start, end) + InRange(TailOf(t, k), start, end))
  {
    hide SectionOk, UnitOk, InRange, SealedFacts, SectionsOf;
    InRangeConcat(SealedFacts(SectionsOf(units, k.table), k), TailOf(t, k), start, end);
    InRangeConcat(SealedFacts(plan, k), TailOf(t, k), start, end);
    SealedAscending(plan, k);
    AscendingConcat(SealedFacts(plan, k), TailOf(t, k));
    InRangeAscends(SealedFacts(plan, k) + TailOf(t, k), start, end);
  }
}
