/** The sections of units counted table by table, against the totals in their headers. */
module Totals {
  import opened Catalog
  import Sequences

  // The sections of the tables that are done.
  function Counted(sections: seq<Section>, done: set<nat>): nat {
    if sections == [] then 0 else
    Counted(sections[..|sections| - 1], done) + (if Last(sections).table in done then 1 else 0)
  }

  lemma {:induction false} CountedMore(sections: seq<Section>, done: set<nat>, table: nat)
    requires table !in done
    ensures Counted(sections, done + {table}) == Counted(sections, done) + |TableSections(sections, table)|
    decreases |sections|
  {
    if sections != [] { CountedMore(sections[..|sections| - 1], done, table); }
  }

  /** All sections are counted exactly when all of their tables are done. */
  lemma {:induction false} CountedAll(sections: seq<Section>, done: set<nat>)
    ensures Counted(sections, done) <= |sections|
    ensures Counted(sections, done) == |sections| <==> forall s | s in sections :: s.table in done
    decreases |sections|
  {
    if sections != [] {
      CountedAll(sections[..|sections| - 1], done);
      Sequences.Snoc(sections);
    }
  }

  ghost predicate CountsOf(inputs: seq<Unit>, done: set<nat>, counts: seq<nat>) {
    |counts| == |inputs| && forall i | 0 <= i < |inputs| :: counts[i] == Counted(inputs[i].sections, done)
  }

  // Counts the sections of one table in each unit.
  method CountTable(inputs: seq<Unit>, table: nat, before: seq<nat>, ghost done: set<nat>) returns (counts: seq<nat>)
    requires CountsOf(inputs, done, before) && table !in done
    ensures CountsOf(inputs, done + {table}, counts)
  {
    counts := before;
    for i := 0 to |inputs|
      invariant |counts| == |inputs|
      invariant forall a | 0 <= a < i :: counts[a] == Counted(inputs[a].sections, done + {table})
      invariant forall a | i <= a < |inputs| :: counts[a] == Counted(inputs[a].sections, done)
    {
      CountedMore(inputs[i].sections, done, table);
      counts := counts[i := counts[i] + |TableSections(inputs[i].sections, table)|];
    }
  }

  lemma {:induction false} NoneCounted(sections: seq<Section>)
    ensures Counted(sections, {}) == 0
    decreases |sections|
  {
    if sections != [] { NoneCounted(sections[..|sections| - 1]); }
  }

  method NoCounts(inputs: seq<Unit>) returns (counts: seq<nat>)
    ensures CountsOf(inputs, {}, counts)
  {
    counts := seq(|inputs|, _ => 0);
    forall i | 0 <= i < |inputs| ensures Counted(inputs[i].sections, {}) == 0 { NoneCounted(inputs[i].sections); }
  }

  // Whether the counts reach the totals of the units.
  method AllCounted(inputs: seq<Unit>, counts: seq<nat>, ghost done: set<nat>) returns (all: bool)
    requires CountsOf(inputs, done, counts)
    ensures all <==> forall i | 0 <= i < |inputs| :: forall s | s in inputs[i].sections :: s.table in done
  {
    hide Counted;
    for i := 0 to |inputs|
      invariant forall a | 0 <= a < i :: forall s | s in inputs[a].sections :: s.table in done
    {
      CountedAll(inputs[i].sections, done);
      if counts[i] != |inputs[i].sections| { return false; }
    }
    return true;
  }
}
