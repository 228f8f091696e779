/**
 What a compaction does to the order of the tables, for any run: units that begin together with
 the new one come before it, and exactly that can put a table out of order.
 */
module CompactionOrder {
  import opened Prelude
  import opened Catalog
  import opened Lookups
  import opened Ranges
  import opened SectionBuffers
  import opened Compaction
  import opened Replacement
  import opened UnitCompaction

  /** How many units right after a position begin no later than a time. */
  function Beside(units: seq<Unit>, i: nat, begin: int): nat
    decreases |units| - i
  {
    if i < |units| && units[i].minTs <= begin then 1 + Beside(units, i + 1, begin) else 0
  }

  lemma {:induction false} BesideIs(units: seq<Unit>, i: nat, begin: int)
    requires UnitsSorted(units) && i <= |units|
    ensures var m := Beside(units, i, begin);
      && i + m <= |units| && (forall j | i <= j < i + m :: units[j].minTs <= begin)
      && forall j | i + m <= j < |units| :: begin < units[j].minTs
    decreases |units| - i
  {
    if i < |units| {
      if units[i].minTs <= begin {
        BesideIs(units, i + 1, begin);
      } else {
        forall j | i <= j < |units| ensures begin < units[j].minTs { SortedMins(units, i, j); }
      }
    }
  }

  // The new unit comes behind those that begin together with it.
  lemma InsertedBehind(a: seq<Unit>, x: seq<Unit>, b: seq<Unit>, u: Unit)
    requires Older(a + x + b, u.id) && (a + x != [] ==> Last(a + x).minTs <= u.minTs)
    requires forall i | 0 <= i < |b| :: u.minTs < b[i].minTs
    ensures Inserted(a + x + b, u) == a + x + [u] + b
  {
    forall i | 0 <= i < |a + x| ensures (a + x)[i].id < u.id { assert (a + x)[i] == (a + x + b)[i]; }
    PutBetween(a + x, b, u);
  }

  // The facts and rows of two lists of units.
  lemma TwoParts(a: seq<Unit>, b: seq<Unit>, k: Key)
    requires UnitsOk(a) && UnitsOk(b)
    ensures UnitsOk(a + b) && SectionsOk(SectionsOf(a, k.table)) && SectionsOk(SectionsOf(b, k.table))
    ensures SectionsOk(SectionsOf(a + b, k.table))
    ensures SealedFacts(SectionsOf(a + b, k.table), k) ==
            SealedFacts(SectionsOf(a, k.table), k) + SealedFacts(SectionsOf(b, k.table), k)
    ensures AllRows(SectionsOf(a + b, k.table)) == AllRows(SectionsOf(a, k.table)) + AllRows(SectionsOf(b, k.table))
  {
    hide UnitOk, SectionOk, SealedFacts, AllRows, SectionsOf;
    SectionsOfOk(a, k.table);
    SectionsOfOk(b, k.table);
    SectionsConcat(a, b, k.table);
    SectionsJoin(SectionsOf(a, k.table), SectionsOf(b, k.table));
    SealedConcat(SectionsOf(a, k.table), SectionsOf(b, k.table), k);
    AllRowsConcat(SectionsOf(a, k.table), SectionsOf(b, k.table));
  }

  lemma FourParts(a: seq<Unit>, b: seq<Unit>, c: seq<Unit>, d: seq<Unit>, k: Key)
    requires UnitsOk(a) && UnitsOk(b) && UnitsOk(c) && UnitsOk(d)
    ensures UnitsOk(a + b + c + d) && SectionsOk(SectionsOf(a + b + c + d, k.table))
    ensures SectionsOk(SectionsOf(a, k.table)) && SectionsOk(SectionsOf(b, k.table))
    ensures SectionsOk(SectionsOf(c, k.table)) && SectionsOk(SectionsOf(d, k.table))
    ensures SealedFacts(SectionsOf(a + b + c + d, k.table), k) ==
            SealedFacts(SectionsOf(a, k.table), k) + SealedFacts(SectionsOf(b, k.table), k)
            + SealedFacts(SectionsOf(c, k.table), k) + SealedFacts(SectionsOf(d, k.table), k)
    ensures AllRows(SectionsOf(a + b + c + d, k.table)) ==
            AllRows(SectionsOf(a, k.table)) + AllRows(SectionsOf(b, k.table))
            + AllRows(SectionsOf(c, k.table)) + AllRows(SectionsOf(d, k.table))
  {
    hide UnitOk, SectionOk, SealedFacts, AllRows, SectionsOf;
    TwoParts(a, b, k);
    TwoParts(a + b, c, k);
    TwoParts(a + b + c, d, k);
  }

  // Two stretches of ascending rows can change places only when one of them is empty.
  lemma RowsSwapped(a: seq<I64>, r: seq<I64>, x: seq<I64>, b: seq<I64>)
    requires Rising(a + r + x + b)
    ensures Rising(a + x + r + b) <==> r == [] || x == []
    ensures r == [] || x == [] ==> a + x + r + b == a + r + x + b
  {
    if r == [] || x == [] {
      assert a + x + r + b == a + r + x + b;
    } else {
      RisingParts(a + r + x, b);
      RisingParts(a + r, x);
      assert r[0] in a + r && x[0] in x && r[0] < x[0];
      NotBoth(a, r, x, b);
    }
  }

  lemma NotBoth(a: seq<I64>, r: seq<I64>, x: seq<I64>, b: seq<I64>)
    requires r != [] && x != [] && r[0] < x[0]
    ensures !Rising(a + x + r + b)
  {
    var all := a + x + r + b;
    assert all[|a|] == x[0] && all[|a| + |x|] == r[0];
  }

  /**
   A table that was in order stays so, with all its facts, exactly when the run or the units
   beside it have no section of that table.
   */
  lemma OrderKept(a: seq<Unit>, run: seq<Unit>, x: seq<Unit>, b: seq<Unit>, u: Unit, t: Table, k: Key)
    requires UnitsOk(a) && UnitsOk(run) && UnitsOk(x) && UnitsOk(b) && UnitOk(u) && Replaces(run, u)
    requires UnitsOk(a + run + x + b) && OrderedTable(a + run + x + b, k.table, t)
    ensures UnitsOk(a + x + [u] + b)
    ensures OrderedTable(a + x + [u] + b, k.table, t) <==>
            SectionsOf(run, k.table) == [] || SectionsOf(x, k.table) == []
    ensures SectionsOf(run, k.table) == [] || SectionsOf(x, k.table) == [] ==>
            AllFacts(a + x + [u] + b, t, k) == AllFacts(a + run + x + b, t, k)
  {
    hide UnitOk, SectionOk, SealedFacts, SealedTags, AllRows, AllVersions, SectionsOf, TailOf, Chain, Rising, Used;
    FourParts(a, run, x, b, k);
    UnitSections(u, k.table);
    FourParts(a, x, [u], b, k);
    NoRows(SectionsOf(run, k.table));
    NoRows(SectionsOf(x, k.table));
    OrderIsRising(a + run + x + b, k.table, t);
    OrderIsRising(a + x + [u] + b, k.table, t);
    RowsSwapped(AllRows(SectionsOf(a, k.table)), AllRows(SectionsOf(run, k.table)), AllRows(SectionsOf(x, k.table)),
                AllRows(SectionsOf(b, k.table)));
    if SectionsOf(run, k.table) == [] || SectionsOf(x, k.table) == [] {
      RowsDecide(a + run + x + b, a + x + [u] + b, k.table, t);
      FactsSwapped(run, x, u, k);
      Swap(SealedFacts(SectionsOf(a, k.table), k), SealedFacts(SectionsOf(run, k.table), k),
           SealedFacts(SectionsOf(x, k.table), k), SealedFacts(SectionsOf(b, k.table), k));
    }
  }

  lemma Swap(a: seq<Fact>, r: seq<Fact>, x: seq<Fact>, b: seq<Fact>)
    requires r == [] || x == []
    ensures a + x + r + b == a + r + x + b
  {
  }

  lemma FactsSwapped(run: seq<Unit>, x: seq<Unit>, u: Unit, k: Key)
    requires UnitsOk(run) && UnitsOk(x) && UnitOk(u) && Replaces(run, u)
    requires SectionsOf(run, k.table) == [] || SectionsOf(x, k.table) == []
    ensures SectionsOk(SectionsOf(run, k.table)) && SectionsOk(SectionsOf(x, k.table))
    ensures SectionsOk(SectionsOf([u], k.table))
    ensures SealedFacts(SectionsOf(run, k.table), k) == [] || SealedFacts(SectionsOf(x, k.table), k) == []
    ensures SealedFacts(SectionsOf([u], k.table), k) == SealedFacts(SectionsOf(run, k.table), k)
  {
    hide UnitOk, SectionOk, SectionsOf, AllRows, AllVersions, SealedTags, Chain, Used;
    UnitSections(u, k.table);
    SectionsOfOk(run, k.table);
    SectionsOfOk(x, k.table);
    SectionsOfOk([u], k.table);
  }

  lemma OrderIsRising(units: seq<Unit>, table: nat, t: Table)
    requires UnitsOk(units)
    ensures SectionsOk(SectionsOf(units, table))
    ensures OrderedTable(units, table, t) ==> Rising(AllRows(SectionsOf(units, table)))
  {
    hide UnitOk, SectionOk, AllRows, SectionsOf, Chain, Rising;
    SectionsOfOk(units, table);
    ChainIsRising(SectionsOf(units, table));
  }

  /**
   The same for a compaction of any run of a catalog; and then a table that could be read can
   be read exactly when it is still in order.
   */
  lemma CompactedOrder(units: seq<Unit>, start: nat, end: nat, id: nat, limits: Limits, u: Unit, after: seq<Unit>,
                       t: Table, k: Key)
    requires UnitsOk(units) && UnitsSorted(units) && AllExact(units) && Older(units, id) && start < end <= |units|
    requires Compacted(units, start, end, id, limits, u, after) && OrderedTable(units, k.table, t)
    ensures UnitsOk(after) && end + Beside(units, end, units[start].minTs) <= |units|
    ensures
      var beside := units[end..end + Beside(units, end, units[start].minTs)];
      var apart := SectionsOf(units[start..end], k.table) == [] || SectionsOf(beside, k.table) == [];
      && (OrderedTable(after, k.table, t) <==> apart)
      && (apart ==> AllFacts(after, t, k) == AllFacts(units, t, k))
      && (Sane(after, k.table, t) <==> Sane(units, k.table, t) && apart)
  {
    hide Exact, UnitOk, Replaces, AllFacts, OrderedTable, Compacted, SectionsOf, UnitsSorted, AllExact, Older, Beside,
         AllKnown;
    CompactedSchema(units, start, end, id, limits, u, after, k.table, t);
    var m := Beside(units, end, units[start].minTs);
    CompactedPlace(units, start, end, id, limits, u, after);
    OrderKept(units[..start], units[start..end], units[end..end + m], units[end + m..], u, t, k);
  }

  // Where the new unit is.
  lemma CompactedPlace(units: seq<Unit>, start: nat, end: nat, id: nat, limits: Limits, u: Unit, after: seq<Unit>)
    requires UnitsOk(units) && UnitsSorted(units) && AllExact(units) && Older(units, id) && start < end <= |units|
    requires Compacted(units, start, end, id, limits, u, after)
    ensures var m := Beside(units, end, units[start].minTs);
      && end + m <= |units| && UnitOk(u) && UnitsOk(units[start..end]) && Replaces(units[start..end], u)
      && UnitsOk(units[..start]) && UnitsOk(units[end..end + m]) && UnitsOk(units[end + m..])
      && units == units[..start] + units[start..end] + units[end..end + m] + units[end + m..]
      && after == units[..start] + units[end..end + m] + [u] + units[end + m..]
  {
    hide Exact, UnitOk, Replaces, AllWithin, Packed, UnitOrder, Inserted, Beside, UnitsSorted, Older;
    var m := Beside(units, end, units[start].minTs);
    BesideIs(units, end, units[start].minTs);
    ExactOk(u);
    RunSorted(units, start, end);
    SameBeginning(units[start..end], u);
    BeginsBefore(units, start, end, m);
    RestSorted(units, start, end, id);
    Cuts(units, start, end, end + m);
    InsertedBehind(units[..start], units[end..end + m], units[end + m..], u);
  }

  lemma Cuts(units: seq<Unit>, a: nat, b: nat, c: nat)
    requires a <= b <= c <= |units|
    ensures units == units[..a] + units[a..b] + units[b..c] + units[c..]
    ensures units[..a] + units[b..] == units[..a] + units[b..c] + units[c..]
  {
  }

  lemma BeginsBefore(units: seq<Unit>, start: nat, end: nat, m: nat)
    requires UnitsSorted(units) && start < end && end + m <= |units|
    requires forall j | end <= j < end + m :: units[j].minTs <= units[start].minTs
    ensures var before := units[..start] + units[end..end + m];
      before != [] ==> Last(before).minTs <= units[start].minTs
  {
    if m == 0 && start > 0 { SortedMins(units, start - 1, start); }
  }
}
