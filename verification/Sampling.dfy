/**
 Point lookups and samples over a batch of keys. A sample reads every fact once and fills
 its grid on the way; each of its slots is proved to be the lookup at that time.
 */
module Sampling {
  import opened Prelude
  import opened Catalog
  import opened Lookups
  import opened Ranges
  import opened Grouping
  import opened Visibility
  import Sequences

  const MAX_QUERY_SLOTS: nat := 1_048_576
  const MAX_OPERATION_MEMORY_BYTES: nat := 16_777_216

  // Whether so many answers, of so many bytes each, fit the memory of one operation.
  predicate FitsMemory(count: nat, size: nat) { count * size <= 16_777_216 }

  lemma MemoryLimit(count: nat, size: nat)
    ensures FitsMemory(count, size) <==> count * size <= MAX_OPERATION_MEMORY_BYTES
  {
  }

  // The table of a key.
  function TableOf(tables: map<nat, Table>, k: Key): Table
    requires k.table in tables
  {
    tables[k.table]
  }

  predicate CatalogOk(units: seq<Unit>, tables: map<nat, Table>) { UnitsOk(units) && TablesOk(tables) }

  predicate AllKeysOk(tables: map<nat, Table>, keys: seq<Key>) { forall i | 0 <= i < |keys| :: KeyOk(tables, keys[i]) }

  method ValidateKeys(tables: map<nat, Table>, keys: seq<Key>) returns (r: Result<()>)
    ensures r.Ok? <==> AllKeysOk(tables, keys)
  {
    for i := 0 to |keys|
      invariant forall a | 0 <= a < i :: KeyOk(tables, keys[a])
    {
      if !KeyOk(tables, keys[i]) { return Err(Invalid); }
    }
    return Ok(());
  }

  // ------------------------------------------------------------ point lookups

  // What a key shows at a time.
  ghost function Shown(units: seq<Unit>, tables: map<nat, Table>, heads: map<Key, Fact>, k: Key,
                       at: int): Result<Lookup>
    requires CatalogOk(units, tables) && KeyOk(tables, k)
  {
    ValueAt(units, TableOf(tables, k), heads, k, at)
  }

  /** What a lookup is about: the latest fact at or before the time or, where there is none, the retention head. */
  ghost predicate About(units: seq<Unit>, t: Table, heads: map<Key, Fact>, k: Key, at: int, f: Fact)
    requires UnitsOk(units)
  {
    var facts := AllFacts(units, t, k);
    && f.ts <= at
    && if exists g :: g in facts && g.ts <= at then f in facts && forall g | g in facts && g.ts <= at :: g.ts <= f.ts
       else k in heads && heads[k] == f
  }

  /** The meaning of a lookup: the fact it is about if that can be seen, and otherwise nothing. */
  lemma ShownMeans(units: seq<Unit>, tables: map<nat, Table>, heads: map<Key, Fact>, k: Key, at: int, f: Fact)
    requires CatalogOk(units, tables) && KeyOk(tables, k)
    requires var t := TableOf(tables, k); InOrder(t.versions) && OrderedTable(units, k.table, t)
    ensures var t := TableOf(tables, k);
      && (About(units, t, heads, k, at, f) ==>
            && (Shown(units, tables, heads, k, at) == Ok(Answer(f)) <==> exists i: nat :: Seen(t, k, f, i, at))
            && (Shown(units, tables, heads, k, at).Ok? <==> exists i: nat ::
                  Governs(t.versions, i, f.ts) && k.field in t.versions[i].fields)
            && (Shown(units, tables, heads, k, at).Ok? && Shown(units, tables, heads, k, at) != Ok(Answer(f)) ==>
                  Shown(units, tables, heads, k, at) == Ok(Missing)))
    ensures (forall g :: !About(units, TableOf(tables, k), heads, k, at, g)) ==>
      Shown(units, tables, heads, k, at) == Ok(Missing)
  {
    hide UnitsOk, TablesOk, OrderedTable, AllFacts, Predecessor, LookupOf, Seen, Governs, InOrder;
    var t := TableOf(tables, k);
    KeyTableOk(tables, k);
    FactsAscend(units, t, k);
    AboutIs(units, t, heads, k, at, f);
    LookupIff(t, k, f, at);
    var shown := WithHead(Predecessor(AllFacts(units, t, k), at), heads, k, at);
    if shown.Some? { AboutIs(units, t, heads, k, at, shown.value); } else { NothingShown(t, k, at); }
  }

  lemma NothingShown(t: Table, k: Key, at: int)
    ensures LookupOf(t, k, None, at) == Ok(Missing)
  {
  }

  lemma KeyTableOk(tables: map<nat, Table>, k: Key)
    requires TablesOk(tables) && KeyOk(tables, k)
    ensures TableOk(tables[k.table])
  {
    hide TableOk;
  }

  // A lookup is about the predecessor or the head.
  lemma AboutIs(units: seq<Unit>, t: Table, heads: map<Key, Fact>, k: Key, at: int, f: Fact)
    requires UnitsOk(units) && Ascending(AllFacts(units, t, k))
    ensures About(units, t, heads, k, at, f) <==>
      WithHead(Predecessor(AllFacts(units, t, k), at), heads, k, at) == Some(f)
  {
    var facts := AllFacts(units, t, k);
    hide UnitsOk, AllFacts;
    PredecessorIsLatest(facts, at);
    hide Predecessor;
    var p := Predecessor(facts, at);
    if p.Some? && About(units, t, heads, k, at, f) {
      assert p.value in facts && f in facts;
      SameTime(facts, p, Some(f));
    }
  }

  // Every key has an answer at a time: its table is sane, and the field of the fact it shows is known.
  ghost predicate Answerable(units: seq<Unit>, tables: map<nat, Table>, heads: map<Key, Fact>, keys: seq<Key>, at: int)
    requires CatalogOk(units, tables) && AllKeysOk(tables, keys)
  {
    UnitsSorted(units) && forall i | 0 <= i < |keys| ::
      Sane(units, keys[i].table, TableOf(tables, keys[i])) && Shown(units, tables, heads, keys[i], at).Ok?
  }

  lemma KeyTables(tables: map<nat, Table>, keys: seq<Key>)
    requires AllKeysOk(tables, keys)
    ensures forall i | 0 <= i < |keys| :: keys[i].table in tables
  {
  }

  lemma GroupAnswerable(units: seq<Unit>, tables: map<nat, Table>, heads: map<Key, Fact>, keys: seq<Key>, g: Group,
                        at: int)
    requires CatalogOk(units, tables) && AllKeysOk(tables, keys) && GroupFits(keys, g)
    ensures AllKeysOk(tables, g.keys) && g.keys != [] && GroupOk(tables, g.keys[0].table, g.keys)
    ensures Answerable(units, tables, heads, keys, at) ==> Answerable(units, tables, heads, g.keys, at)
  {
    hide KeyOk, CatalogOk, Asks, Increasing, Sane, Shown, UnitsSorted;
    GroupKeysOk(tables, keys, g);
    KeyTables(tables, g.keys);
    if Answerable(units, tables, heads, keys, at) {
      forall j | 0 <= j < |g.keys|
        ensures Sane(units, g.keys[j].table, TableOf(tables, g.keys[j]))
        ensures Shown(units, tables, heads, g.keys[j], at).Ok?
      {
        var p :| 0 <= p < |keys| && keys[p] == g.keys[j];
      }
    }
  }

  // The lookups of one group.
  method LookUpGroup(units: seq<Unit>, tables: map<nat, Table>, heads: map<Key, Fact>, keys: seq<Key>, at: I64)
    returns (r: Result<seq<Lookup>>)
    requires CatalogOk(units, tables) && AllKeysOk(tables, keys)
    ensures r.Ok? ==>
      |r.value| == |keys| && forall i | 0 <= i < |keys| :: Shown(units, tables, heads, keys[i], at) == Ok(r.value[i])
    ensures keys != [] && GroupOk(tables, keys[0].table, keys) && Answerable(units, tables, heads, keys, at) ==> r.Ok?
  {
    hide UnitsOk, TablesOk, LookupOf, WithHead, Predecessor, AllFacts, Sane, UnitsSorted;
    var facts :- Predecessors(units, tables, keys, at);
    var values: seq<Lookup> := [];
    for i := 0 to |keys|
      invariant |values| == i && forall a | 0 <= a < i :: Shown(units, tables, heads, keys[a], at) == Ok(values[a])
    {
      var value :- LookupOf(tables[keys[i].table], keys[i], WithHead(facts[i], heads, keys[i], at), at);
      values := values + [value];
    }
    return Ok(values);
  }

  // The answers that are in place so far.
  ghost predicate Answering(units: seq<Unit>, tables: map<nat, Table>, heads: map<Key, Fact>, keys: seq<Key>, at: int,
                            groups: seq<Group>, n: nat, output: seq<Option<Lookup>>)
    requires CatalogOk(units, tables) && AllKeysOk(tables, keys) && n <= |groups|
  {
    |output| == |keys| && forall g, p | 0 <= g < n && 0 <= p < |keys| && groups[g].table == keys[p].table ::
      output[p].Some? && Shown(units, tables, heads, keys[p], at) == Ok(output[p].value)
  }

  // Scattering a group answers its positions and leaves those of other tables.
  lemma Scattered<T>(keys: seq<Key>, g: Group, before: seq<Option<T>>, after: seq<Option<T>>, values: seq<T>, p: nat)
    requires GroupFits(keys, g) && |values| == |g.keys| && |before| == |after| == |keys| && p < |keys|
    requires forall j | 0 <= j < |values| :: AllSet(after, g.destinations[j], values[j])
    requires forall q: nat | q < |before| && !Named(g.destinations, |g.destinations|, q) :: after[q] == before[q]
    ensures keys[p].table != g.table ==> after[p] == before[p]
    ensures keys[p].table == g.table ==>
      exists j :: 0 <= j < |g.keys| && g.keys[j] == keys[p] && after[p] == Some(values[j])
  {
    DestinationsApart(keys, g);
    if keys[p].table == g.table {
      var j :| 0 <= j < |g.keys| && g.keys[j] == keys[p];
      assert Asks(keys, g.keys[j], g.destinations[j]) && p in g.destinations[j];
    } else {
      assert !Named(g.destinations, |g.destinations|, p);
    }
  }

  /**
   The value of each key at a time; position `i` answers key `i`, whatever their order or
   repetition. `size` is what one answer takes in memory.
   */
  method ValuesAt(units: seq<Unit>, tables: map<nat, Table>, heads: map<Key, Fact>, keys: seq<Key>, at: I64, size: nat)
    returns (r: Result<seq<Lookup>>)
    requires CatalogOk(units, tables)
    ensures r.Ok? ==> AllKeysOk(tables, keys) && |r.value| == |keys| && FitsMemory(|keys|, size)
    ensures r.Ok? ==> forall i | 0 <= i < |keys| :: Shown(units, tables, heads, keys[i], at) == Ok(r.value[i])
    ensures AllKeysOk(tables, keys) && FitsMemory(|keys|, size) && Answerable(units, tables, heads, keys, at) ==> r.Ok?
  {
    hide CatalogOk, KeyOk, Shown, GroupFits, Answering, Named, AllSet, Within, GroupOk, Answerable, FitsMemory;
    var _ :- ValidateKeys(tables, keys);
    MemoryLimit(|keys|, size);
    if |keys| * size > MAX_OPERATION_MEMORY_BYTES { return Err(Limit); }
    var groups := GroupKeys(keys);
    var output: seq<Option<Lookup>> := seq(|keys|, _ => None);
    NothingAnswered(units, tables, heads, keys, at, groups, output);
    for g := 0 to |groups|
      invariant |output| == |keys| && Answering(units, tables, heads, keys, at, groups, g, output)
    {
      GroupKeysOk(tables, keys, groups[g]);
      GroupAnswerable(units, tables, heads, keys, groups[g], at);
      var values :- LookUpGroup(units, tables, heads, groups[g].keys, at);
      DestinationsApart(keys, groups[g]);
      var scattered := Scatter(output, groups[g].destinations, values);
      if scattered.Err? { return Err(Corruption); }
      AnsweredGroup(units, tables, heads, keys, at, groups, g, output, scattered.value, values);
      output := scattered.value;
    }
    AllAnswered(units, tables, heads, keys, at, groups, output);
    r := Collect(output);
  }

  lemma NothingAnswered(units: seq<Unit>, tables: map<nat, Table>, heads: map<Key, Fact>, keys: seq<Key>, at: int,
                        groups: seq<Group>, output: seq<Option<Lookup>>)
    requires CatalogOk(units, tables) && AllKeysOk(tables, keys) && |output| == |keys|
    ensures Answering(units, tables, heads, keys, at, groups, 0, output)
  {
  }

  lemma GroupKeysOk(tables: map<nat, Table>, keys: seq<Key>, g: Group)
    requires AllKeysOk(tables, keys) && GroupFits(keys, g)
    ensures AllKeysOk(tables, g.keys) && |g.destinations| == |g.keys|
  {
    hide KeyOk;
    forall j | 0 <= j < |g.keys| ensures KeyOk(tables, g.keys[j]) {
      assert g.keys[j] in keys;
    }
  }

  lemma AnsweredGroup(units: seq<Unit>, tables: map<nat, Table>, heads: map<Key, Fact>, keys: seq<Key>, at: int,
                      groups: seq<Group>, n: nat, before: seq<Option<Lookup>>, after: seq<Option<Lookup>>,
                      values: seq<Lookup>)
    requires CatalogOk(units, tables) && AllKeysOk(tables, keys) && n < |groups| && GroupFits(keys, groups[n])
    requires Answering(units, tables, heads, keys, at, groups, n, before) && |after| == |keys|
    requires AllKeysOk(tables, groups[n].keys) && |values| == |groups[n].keys|
    requires forall j | 0 <= j < |values| :: Shown(units, tables, heads, groups[n].keys[j], at) == Ok(values[j])
    requires forall j | 0 <= j < |values| :: AllSet(after, groups[n].destinations[j], values[j])
    requires forall q: nat | q < |before| && !Named(groups[n].destinations, |groups[n].destinations|, q) ::
      after[q] == before[q]
    ensures Answering(units, tables, heads, keys, at, groups, n + 1, after)
  {
    hide CatalogOk, KeyOk, Shown, GroupFits, Named, AllSet;
    forall g, p | 0 <= g < n + 1 && 0 <= p < |keys| && groups[g].table == keys[p].table
      ensures after[p].Some? && Shown(units, tables, heads, keys[p], at) == Ok(after[p].value)
    {
      FitsSize(keys, groups[n]);
      Scattered(keys, groups[n], before, after, values, p);
    }
  }

  lemma FitsSize(keys: seq<Key>, g: Group)
    requires GroupFits(keys, g)
    ensures |g.destinations| == |g.keys|
  {
  }

  lemma AllAnswered(units: seq<Unit>, tables: map<nat, Table>, heads: map<Key, Fact>, keys: seq<Key>, at: int,
                    groups: seq<Group>, output: seq<Option<Lookup>>)
    requires CatalogOk(units, tables) && AllKeysOk(tables, keys) && Covers(keys, groups)
    requires Answering(units, tables, heads, keys, at, groups, |groups|, output)
    ensures |output| == |keys|
    ensures forall p | 0 <= p < |keys| ::
      output[p].Some? && Shown(units, tables, heads, keys[p], at) == Ok(output[p].value)
  {
    hide CatalogOk, KeyOk, Shown, GroupFits;
    forall p | 0 <= p < |keys|
      ensures output[p].Some? && Shown(units, tables, heads, keys[p], at) == Ok(output[p].value)
    {
      var g :| 0 <= g < |groups| && groups[g].table == keys[p].table;
    }
  }

  // ----------------------------------------------------------------- the grid

  /** The number of grid points from a start before an end. */
  method MeasureGrid(start: I64, end: I64, step: U32) returns (r: Result<nat>)
    ensures r.Ok? <==> start <= end && step > 0
    ensures r.Ok? ==> forall i: nat :: i < r.value <==> start + i * step < end
  {
    if start > end || step == 0 { return Err(Invalid); }
    var count := (end - start + (step - 1)) / step;
    GridSize(end - start, step, count);
    return Ok(count);
  }

  lemma GridSize(span: nat, step: nat, count: nat)
    requires step > 0 && count == (span + (step - 1)) / step
    ensures forall i: nat :: i < count <==> i * step < span
  {
    var total := span + (step - 1);
    forall i: nat ensures i < count <==> i * step < span {
      if i < count { MulMono(step, i + 1, count); } else { MulMono(step, count, i); }
      assert count * step <= total < count * step + step by { DivMod(total, step); }
      MulNext(i, step);
    }
  }

  lemma DivMod(n: nat, d: nat)
    requires d > 0
    ensures n == (n / d) * d + n % d && n % d < d
  {
  }

  lemma MulMono(d: nat, a: nat, b: nat)
    requires a <= b
    ensures a * d <= b * d
  {
  }

  lemma MulNext(i: nat, d: nat)
    ensures (i + 1) * d == i * d + d
  {
  }

  function Grid(start: int, step: nat, i: nat): int { start + i * step }

  lemma GridGrows(start: int, step: nat, i: nat, j: nat)
    requires i <= j
    ensures Grid(start, step, i) <= Grid(start, step, j)
  {
    MulMono(step, i, j);
  }

  // ------------------------------------------------------------------ samples

  // Between two facts of the range, the earlier one is the predecessor.
  lemma Between(fs: seq<Fact>, start: int, end: int, m: nat, t: int)
    requires Ascending(fs) && start <= t < end && m <= |InRange(fs, start, end)|
    requires m < |InRange(fs, start, end)| ==> t < InRange(fs, start, end)[m].ts
    requires m > 0 ==> InRange(fs, start, end)[m - 1].ts <= t
    ensures Predecessor(fs, t) == if m > 0 then Some(InRange(fs, start, end)[m - 1]) else Predecessor(fs, start)
  {
    var r := InRange(fs, start, end);
    InRangeIs(fs, start, end);
    InRangeAscends(fs, start, end);
    PredecessorIsLatest(fs, t);
    PredecessorIsLatest(fs, start);
    hide InRange, Predecessor;
    forall g | g in fs && start <= g.ts <= t ensures m > 0 && g.ts <= r[m - 1].ts {
      assert g in r;
      var x :| 0 <= x < |r| && r[x] == g;
      EarlierIndex(r, m, x, t);
    }
    if m > 0 { assert r[m - 1] in r; }
    SameTime(fs, Predecessor(fs, t), if m > 0 then Some(r[m - 1]) else Predecessor(fs, start));
  }

  lemma EarlierIndex(r: seq<Fact>, m: nat, x: nat, t: int)
    requires Ascending(r) && m <= |r| && x < |r| && r[x].ts <= t && (m < |r| ==> t < r[m].ts)
    ensures x < m && r[x].ts <= r[m - 1].ts
  {
  }

  lemma SameTime(fs: seq<Fact>, a: Option<Fact>, b: Option<Fact>)
    requires Ascending(fs) && (a.Some? ==> a.value in fs) && (b.Some? ==> b.value in fs)
    ensures a.Some? && b.Some? && a.value.ts == b.value.ts ==> a == b
  {
    if a.Some? && b.Some? {
      var i :| 0 <= i < |fs| && fs[i] == a.value;
      var j :| 0 <= j < |fs| && fs[j] == b.value;
    }
  }

  // One key on its way through the grid.
  datatype State = State(current: Option<Fact>, slots: seq<Slot>)

  // What the slots must show.
  ghost predicate Filled(units: seq<Unit>, tables: map<nat, Table>, heads: map<Key, Fact>, k: Key, start: I64,
                         step: U32, slots: seq<Slot>)
    requires CatalogOk(units, tables) && KeyOk(tables, k)
  {
    forall x | 0 <= x < |slots| ::
      && Shown(units, tables, heads, k, Grid(start, step, x)).Ok?
      && Shows(slots[x], Shown(units, tables, heads, k, Grid(start, step, x)).value, Grid(start, step, x))
  }

  // The range of facts that one key is sampled over.
  ghost function RangeFacts(units: seq<Unit>, tables: map<nat, Table>, k: Key, start: I64, end: I64): seq<Fact>
    requires CatalogOk(units, tables) && KeyOk(tables, k)
  {
    InRange(AllFacts(units, TableOf(tables, k), k), start, end)
  }

  // The table keeps its sections in order, and no head is later than the start.
  ghost predicate Samplable(units: seq<Unit>, tables: map<nat, Table>, heads: map<Key, Fact>, k: Key, start: I64)
    requires CatalogOk(units, tables) && KeyOk(tables, k)
  {
    OrderedTable(units, k.table, TableOf(tables, k)) && (k in heads ==> heads[k].ts <= start)
  }

  // Every grid point has an answer.
  ghost predicate Showable(units: seq<Unit>, tables: map<nat, Table>, heads: map<Key, Fact>, k: Key, start: I64,
                           step: U32, count: nat)
    requires CatalogOk(units, tables) && KeyOk(tables, k)
  {
    forall x | 0 <= x < count :: Shown(units, tables, heads, k, Grid(start, step, x)).Ok?
  }

  // Where a key stands after `m` of its facts.
  ghost predicate Standing(units: seq<Unit>, tables: map<nat, Table>, heads: map<Key, Fact>, k: Key, start: I64,
                           end: I64, step: U32, count: nat, m: nat, s: State)
    requires CatalogOk(units, tables) && KeyOk(tables, k)
  {
    var r := RangeFacts(units, tables, k, start, end);
    && m <= |r| && |s.slots| <= count
    && (Samplable(units, tables, heads, k, start) ==> Filled(units, tables, heads, k, start, step, s.slots))
    && (m == 0 ==> s.current == WithHead(Predecessor(AllFacts(units, TableOf(tables, k), k), start), heads, k, start))
    && (m > 0 ==> s.current == Some(r[m - 1]) && (|s.slots| < count ==> r[m - 1].ts <= Grid(start, step, |s.slots|)))
  }

  // Until its next fact, a key shows what it is standing on.
  lemma ShownWhile(units: seq<Unit>, tables: map<nat, Table>, heads: map<Key, Fact>, k: Key, start: I64, end: I64,
                   step: U32, count: nat, m: nat, s: State)
    requires CatalogOk(units, tables) && KeyOk(tables, k) && Samplable(units, tables, heads, k, start)
    requires Standing(units, tables, heads, k, start, end, step, count, m, s) && |s.slots| < count
    requires Grid(start, step, |s.slots|) < end
    requires m < |RangeFacts(units, tables, k, start, end)| ==>
      Grid(start, step, |s.slots|) < RangeFacts(units, tables, k, start, end)[m].ts
    ensures var at := Grid(start, step, |s.slots|);
            Shown(units, tables, heads, k, at) == LookupOf(TableOf(tables, k), k, s.current, at)
  {
    hide UnitsOk, TableOk, LookupOf, AllFacts, InRange, Predecessor, OrderedTable, Filled;
    var at := Grid(start, step, |s.slots|);
    GridGrows(start, step, 0, |s.slots|);
    FactsAscend(units, TableOf(tables, k), k);
    Between(AllFacts(units, TableOf(tables, k), k), start, end, m, at);
  }

  /** Fills the slots before the next fact of a key, or all of them. */
  method FillSlots(units: seq<Unit>, tables: map<nat, Table>, heads: map<Key, Fact>, k: Key, start: I64, end: I64,
                   step: U32, count: nat, ghost m: nat, state: State, next: Option<I64>) returns (r: Result<State>)
    requires CatalogOk(units, tables) && KeyOk(tables, k)
    requires Standing(units, tables, heads, k, start, end, step, count, m, state)
    requires forall i: nat :: i < count <==> Grid(start, step, i) < end
    requires var all := RangeFacts(units, tables, k, start, end);
             next == if m < |all| then Some(all[m].ts) else None
    ensures r.Ok? ==>
      Standing(units, tables, heads, k, start, end, step, count, m, r.value) && r.value.current == state.current
    ensures r.Ok? && |r.value.slots| < count ==> next.Some? && next.value <= Grid(start, step, |r.value.slots|)
    ensures Samplable(units, tables, heads, k, start) && Showable(units, tables, heads, k, start, step, count) ==>
      r.Ok?
  {
    hide CatalogOk, KeyOk, Samplable, LookupOf, SlotOf, Shown, RangeFacts, Grid, Filled, Predecessor, AllFacts,
         WithHead;
    var s := state;
    KeyTable(tables, k);
    while |s.slots| < count
      invariant Standing(units, tables, heads, k, start, end, step, count, m, s) && s.current == state.current
      decreases count - |s.slots|
    {
      var at := Grid(start, step, |s.slots|);
      if next.Some? && at >= next.value { return Ok(s); }
      if Samplable(units, tables, heads, k, start) {
        ShownWhile(units, tables, heads, k, start, end, step, count, m, s);
      }
      SlotShows(TableOf(tables, k), k, s.current, at);
      var slot :- SlotOf(TableOf(tables, k), k, s.current, at);
      FilledMore(units, tables, heads, k, start, end, step, count, m, s, slot);
      s := State(s.current, s.slots + [slot]);
    }
    return Ok(s);
  }

  lemma KeyTable(tables: map<nat, Table>, k: Key)
    requires KeyOk(tables, k)
    ensures k.table in tables
  {
  }

  lemma FilledMore(units: seq<Unit>, tables: map<nat, Table>, heads: map<Key, Fact>, k: Key, start: I64, end: I64,
                   step: U32, count: nat, m: nat, s: State, slot: Slot)
    requires CatalogOk(units, tables) && KeyOk(tables, k)
    requires Standing(units, tables, heads, k, start, end, step, count, m, s) && |s.slots| < count
    requires Samplable(units, tables, heads, k, start) ==>
      && Shown(units, tables, heads, k, Grid(start, step, |s.slots|)).Ok?
      && Shows(slot, Shown(units, tables, heads, k, Grid(start, step, |s.slots|)).value, Grid(start, step, |s.slots|))
    ensures Standing(units, tables, heads, k, start, end, step, count, m, State(s.current, s.slots + [slot]))
  {
    hide CatalogOk, KeyOk, LookupOf, Shown, RangeFacts, Predecessor, AllFacts, WithHead, Shows, Samplable;
    var n := |s.slots|;
    GridGrows(start, step, n, n + 1);
    if Samplable(units, tables, heads, k, start) {
      assert Filled(units, tables, heads, k, start, step, s.slots + [slot]);
    }
  }

  // ------------------------------------------------------- a group of samples

  // Every key stands after the facts it was visited with.
  ghost predicate AllStanding(units: seq<Unit>, tables: map<nat, Table>, heads: map<Key, Fact>, keys: seq<Key>,
                              start: I64, end: I64, step: U32, count: nat, visits: seq<Visit>, states: seq<State>)
    requires CatalogOk(units, tables) && AllKeysOk(tables, keys)
  {
    |states| == |keys| && forall i | 0 <= i < |keys| ::
      Standing(units, tables, heads, keys[i], start, end, step, count, |VisitsOf(visits, i)|, states[i])
  }

  lemma {:induction false} VisitsPrefix(visits: seq<Visit>, n: nat, i: nat)
    requires n <= |visits|
    ensures VisitsOf(visits[..n], i) <= VisitsOf(visits, i)
    decreases |visits|
  {
    if n == |visits| {
      Sequences.Neutral(visits);
    } else {
      VisitsPrefix(visits[..|visits| - 1], n, i);
      Sequences.Take(visits, n, |visits| - 1);
    }
  }

  // The next visit brings a key its next fact.
  lemma NextVisit(visits: seq<Visit>, n: nat)
    requires n < |visits|
    ensures var v := visits[n]; var m := |VisitsOf(visits[..n], v.index)|;
            m < |VisitsOf(visits, v.index)| && VisitsOf(visits, v.index)[m] == v.fact
              && |VisitsOf(visits[..n + 1], v.index)| == m + 1
    ensures forall i: nat | i != visits[n].index :: VisitsOf(visits[..n + 1], i) == VisitsOf(visits[..n], i)
  {
    assert visits[..n + 1] == visits[..n] + [visits[n]];
    VisitsNext(visits[..n], visits[n]);
    var v := visits[n];
    VisitsPrefix(visits, n + 1, v.index);
    var a, b := VisitsOf(visits[..n], v.index), VisitsOf(visits, v.index);
    assert VisitsOf(visits[..n + 1], v.index) == a + [v.fact] && (a + [v.fact])[|a|] == v.fact;
  }

  // Every key can be sampled, and its table is sane.
  ghost predicate Samplables(units: seq<Unit>, tables: map<nat, Table>, heads: map<Key, Fact>, keys: seq<Key>,
                             start: I64, step: U32, count: nat)
    requires CatalogOk(units, tables) && AllKeysOk(tables, keys)
  {
    UnitsSorted(units) && forall i | 0 <= i < |keys| ::
      && Sane(units, keys[i].table, TableOf(tables, keys[i])) && Samplable(units, tables, heads, keys[i], start)
      && Showable(units, tables, heads, keys[i], start, step, count)
  }

  // The slots of a key are in place; what they show is known where the table is in order.
  ghost predicate SampleOf(units: seq<Unit>, tables: map<nat, Table>, heads: map<Key, Fact>, k: Key, start: I64,
                           step: U32, slots: seq<Slot>)
    requires CatalogOk(units, tables) && KeyOk(tables, k)
  {
    Samplable(units, tables, heads, k, start) ==> Filled(units, tables, heads, k, start, step, slots)
  }

  /** Samples the keys of one table in one pass over their facts. */
  method SampleGroup(units: seq<Unit>, tables: map<nat, Table>, heads: map<Key, Fact>, keys: seq<Key>, start: I64,
                     end: I64, step: U32, count: nat) returns (r: Result<seq<seq<Slot>>>)
    requires CatalogOk(units, tables) && AllKeysOk(tables, keys) && keys != []
    requires forall i: nat :: i < count <==> Grid(start, step, i) < end
    ensures r.Ok? ==> |r.value| == |keys|
    ensures r.Ok? ==> forall i | 0 <= i < |keys| ::
      |r.value[i]| == count && SampleOf(units, tables, heads, keys[i], start, step, r.value[i])
    ensures start <= end && GroupOk(tables, keys[0].table, keys) ==>
      Samplables(units, tables, heads, keys, start, step, count) ==> r.Ok?
  {
    hide KeyOk, Samplables, AllStanding, Filled, Predecessor, AllFacts, InRange, UnitsOk, TablesOk, WithHead, Grid,
         Sane, UnitsSorted, Ascending, SampleOf, VisitsOf;
    SamplablesSane(units, tables, heads, keys, start, step, count);
    var first :- Predecessors(units, tables, keys, start);
    var visits :- VisitFacts(units, tables, keys, start, end);
    var states := seq(|keys|, i requires 0 <= i < |keys| => State(WithHead(first[i], heads, keys[i], start), []));
    AllStandingFirst(units, tables, heads, keys, start, end, step, count, first, visits, states);
    states :- FillVisits(units, tables, heads, keys, start, end, step, count, visits, states);
    r := FinishSamples(units, tables, heads, keys, start, end, step, count, visits, states);
  }

  lemma SamplablesSane(units: seq<Unit>, tables: map<nat, Table>, heads: map<Key, Fact>, keys: seq<Key>, start: I64,
                       step: U32, count: nat)
    requires CatalogOk(units, tables) && AllKeysOk(tables, keys) && keys != []
    ensures Samplables(units, tables, heads, keys, start, step, count) ==>
      UnitsSorted(units) && Sane(units, keys[0].table, TableOf(tables, keys[0]))
  {
    hide KeyOk, CatalogOk, Samplable, Sane, UnitsSorted, Showable;
  }

  // Takes every key through its facts.
  method FillVisits(units: seq<Unit>, tables: map<nat, Table>, heads: map<Key, Fact>, keys: seq<Key>, start: I64,
                    end: I64, step: U32, count: nat, visits: seq<Visit>, first: seq<State>)
    returns (r: Result<seq<State>>)
    requires CatalogOk(units, tables) && AllKeysOk(tables, keys)
    requires forall i: nat :: i < count <==> Grid(start, step, i) < end
    requires forall i | 0 <= i < |keys| :: VisitsOf(visits, i) == RangeFacts(units, tables, keys[i], start, end)
    requires AllStanding(units, tables, heads, keys, start, end, step, count, visits[..0], first)
    ensures r.Ok? ==> AllStanding(units, tables, heads, keys, start, end, step, count, visits, r.value)
    ensures Samplables(units, tables, heads, keys, start, step, count) ==> r.Ok?
  {
    hide KeyOk, CatalogOk, Samplable, Standing, Filled, RangeFacts, WithHead, Grid, Sane, UnitsSorted, Showable,
         VisitsOf;
    var states := first;
    for n := 0 to |visits|
      invariant AllStanding(units, tables, heads, keys, start, end, step, count, visits[..n], states)
    {
      var v := visits[n];
      NextVisit(visits, n);
      if v.index < |keys| {
        var i, m := v.index, |VisitsOf(visits[..n], v.index)|;
        var filled :- FillSlots(units, tables, heads, keys[i], start, end, step, count, m, states[i], Some(v.fact.ts));
        StandingNext(units, tables, heads, keys[i], start, end, step, count, m, filled, v.fact);
        states := states[i := State(Some(v.fact), filled.slots)];
      }
    }
    Sequences.Neutral(visits);
    return Ok(states);
  }

  lemma AllStandingFirst(units: seq<Unit>, tables: map<nat, Table>, heads: map<Key, Fact>, keys: seq<Key>, start: I64,
                         end: I64, step: U32, count: nat, first: seq<Option<Fact>>, visits: seq<Visit>,
                         states: seq<State>)
    requires CatalogOk(units, tables) && AllKeysOk(tables, keys) && |first| == |keys| == |states|
    requires forall i | 0 <= i < |keys| ::
      first[i] == Predecessor(AllFacts(units, tables[keys[i].table], keys[i]), start)
    requires forall i | 0 <= i < |keys| :: states[i] == State(WithHead(first[i], heads, keys[i], start), [])
    ensures AllStanding(units, tables, heads, keys, start, end, step, count, visits[..0], states)
  {
    hide Standing, Predecessor, AllFacts, UnitsOk, TablesOk, WithHead;
    assert visits[..0] == [];
    forall i | 0 <= i < |keys|
      ensures Standing(units, tables, heads, keys[i], start, end, step, count, |VisitsOf(visits[..0], i)|, states[i])
    {
      StandingFirst(units, tables, heads, keys[i], start, end, step, count, first[i]);
    }
  }

  lemma StandingFirst(units: seq<Unit>, tables: map<nat, Table>, heads: map<Key, Fact>, k: Key, start: I64, end: I64,
                      step: U32, count: nat, fact: Option<Fact>)
    requires CatalogOk(units, tables) && KeyOk(tables, k)
    requires fact == Predecessor(AllFacts(units, TableOf(tables, k), k), start)
    ensures Standing(units, tables, heads, k, start, end, step, count, 0, State(WithHead(fact, heads, k, start), []))
  {
    hide Predecessor, AllFacts, UnitsOk, TablesOk, InRange, Samplable;
  }

  lemma StandingNext(units: seq<Unit>, tables: map<nat, Table>, heads: map<Key, Fact>, k: Key, start: I64, end: I64,
                     step: U32, count: nat, m: nat, s: State, fact: Fact)
    requires CatalogOk(units, tables) && KeyOk(tables, k)
    requires Standing(units, tables, heads, k, start, end, step, count, m, s)
    requires m < |RangeFacts(units, tables, k, start, end)| && RangeFacts(units, tables, k, start, end)[m] == fact
    requires |s.slots| < count ==> fact.ts <= Grid(start, step, |s.slots|)
    ensures Standing(units, tables, heads, k, start, end, step, count, m + 1, State(Some(fact), s.slots))
  {
    hide Predecessor, AllFacts, UnitsOk, TablesOk, RangeFacts, Filled, WithHead, Grid, Samplable;
  }

  // The slots after the last fact of each key.
  method FinishSamples(units: seq<Unit>, tables: map<nat, Table>, heads: map<Key, Fact>, keys: seq<Key>, start: I64,
                       end: I64, step: U32, count: nat, ghost visits: seq<Visit>, states: seq<State>)
    returns (r: Result<seq<seq<Slot>>>)
    requires CatalogOk(units, tables) && AllKeysOk(tables, keys)
    requires forall i: nat :: i < count <==> Grid(start, step, i) < end
    requires AllStanding(units, tables, heads, keys, start, end, step, count, visits, states)
    requires forall i | 0 <= i < |keys| :: VisitsOf(visits, i) == RangeFacts(units, tables, keys[i], start, end)
    ensures r.Ok? ==> |r.value| == |keys|
    ensures r.Ok? ==> forall i | 0 <= i < |keys| ::
      |r.value[i]| == count && SampleOf(units, tables, heads, keys[i], start, step, r.value[i])
    ensures Samplables(units, tables, heads, keys, start, step, count) ==> r.Ok?
  {
    hide KeyOk, CatalogOk, Samplable, Standing, Filled, RangeFacts, Grid, VisitsOf, Sane, Showable, UnitsSorted;
    var samples: seq<seq<Slot>> := [];
    for i := 0 to |keys|
      invariant |samples| == i
      invariant forall a | 0 <= a < i ::
        |samples[a]| == count && SampleOf(units, tables, heads, keys[a], start, step, samples[a])
    {
      ghost var m := |RangeFacts(units, tables, keys[i], start, end)|;
      var state :- FillSlots(units, tables, heads, keys[i], start, end, step, count, m, states[i], None);
      StandingSlots(units, tables, heads, keys[i], start, end, step, count, m, state);
      samples := samples + [state.slots];
    }
    return Ok(samples);
  }

  lemma StandingSlots(units: seq<Unit>, tables: map<nat, Table>, heads: map<Key, Fact>, k: Key, start: I64, end: I64,
                      step: U32, count: nat, m: nat, s: State)
    requires CatalogOk(units, tables) && KeyOk(tables, k)
    requires Standing(units, tables, heads, k, start, end, step, count, m, s)
    ensures |s.slots| <= count && SampleOf(units, tables, heads, k, start, step, s.slots)
  {
    hide CatalogOk, KeyOk, RangeFacts, Filled, Predecessor, AllFacts, WithHead, Grid, Samplable;
  }

  /**
   A sample of a batch: position `i` holds, for every grid point, what a lookup of key `i`
   at that time shows, and whether it was carried there from an earlier time, wherever the
   table of the key is in order and its head lies before the start. `size` is what one slot
   takes in memory.
   */
  method Sample(units: seq<Unit>, tables: map<nat, Table>, heads: map<Key, Fact>, keys: seq<Key>, start: I64, end: I64,
                step: U32, size: nat)
    returns (r: Result<seq<seq<Slot>>>)
    requires CatalogOk(units, tables)
    ensures r.Ok? ==> AllKeysOk(tables, keys) && start <= end && step > 0 && |r.value| == |keys|
    ensures r.Ok? ==> forall i | 0 <= i < |keys| ::
      && (forall x: nat :: x < |r.value[i]| <==> Grid(start, step, x) < end)
      && SampleOf(units, tables, heads, keys[i], start, step, r.value[i])
      && |r.value[i]| * |keys| <= 1_048_576 && FitsMemory(|r.value[i]| * |keys|, size)
    ensures r.Err? ==> start > end || step == 0 || !AllKeysOk(tables, keys) || exists count: nat ::
      && (forall x: nat :: x < count <==> Grid(start, step, x) < end)
      && (count * |keys| > 1_048_576 || !FitsMemory(count * |keys|, size)
          || !Samplables(units, tables, heads, keys, start, step, count))
  {
    hide KeyOk, CatalogOk, Samplables, SampleOf, GroupFits, Named, AllSet, Within, Grid, Sampled, GroupOk, FitsMemory;
    var _ :- ValidateKeys(tables, keys);
    var count :- MeasureGrid(start, end, step);
    GridIs(start, end, step, count);
    var total := count * |keys|;
    MemoryLimit(total, size);
    if total > MAX_QUERY_SLOTS || total * size > MAX_OPERATION_MEMORY_BYTES { return Err(Limit); }
    var groups := GroupKeys(keys);
    var output: seq<Option<seq<Slot>>> := seq(|keys|, _ => None);
    NothingSampled(units, tables, heads, keys, start, step, count, groups, output);
    for g := 0 to |groups|
      invariant |output| == |keys| && Sampled(units, tables, heads, keys, start, step, count, groups, g, output)
    {
      GroupSamplable(units, tables, heads, keys, groups[g], start, step, count);
      var values :- SampleGroup(units, tables, heads, groups[g].keys, start, end, step, count);
      DestinationsApart(keys, groups[g]);
      var scattered := Scatter(output, groups[g].destinations, values);
      if scattered.Err? { return Err(Corruption); }
      SampledGroup(units, tables, heads, keys, start, step, count, groups, g, output, scattered.value, values);
      output := scattered.value;
    }
    AllSampled(units, tables, heads, keys, start, step, count, groups, output);
    r := Collect(output);
  }

  lemma GridIs(start: I64, end: I64, step: U32, count: nat)
    requires forall i: nat :: i < count <==> start + i * step < end
    ensures forall i: nat :: i < count <==> Grid(start, step, i) < end
  {
  }

  lemma GroupSamplable(units: seq<Unit>, tables: map<nat, Table>, heads: map<Key, Fact>, keys: seq<Key>, g: Group,
                       start: I64, step: U32, count: nat)
    requires CatalogOk(units, tables) && AllKeysOk(tables, keys) && GroupFits(keys, g)
    ensures AllKeysOk(tables, g.keys) && |g.destinations| == |g.keys| && g.keys != []
    ensures GroupOk(tables, g.keys[0].table, g.keys)
    ensures Samplables(units, tables, heads, keys, start, step, count) ==>
      Samplables(units, tables, heads, g.keys, start, step, count)
  {
    hide KeyOk, CatalogOk, Samplable, Showable, Sane, Asks, Increasing, UnitsSorted;
    GroupKeysOk(tables, keys, g);
    KeyTables(tables, g.keys);
    if Samplables(units, tables, heads, keys, start, step, count) {
      forall j | 0 <= j < |g.keys|
        ensures Sane(units, g.keys[j].table, TableOf(tables, g.keys[j]))
        ensures Samplable(units, tables, heads, g.keys[j], start)
        ensures Showable(units, tables, heads, g.keys[j], start, step, count)
      {
        var p :| 0 <= p < |keys| && keys[p] == g.keys[j];
      }
    }
  }

  // The samples that are in place so far.
  ghost predicate Sampled(units: seq<Unit>, tables: map<nat, Table>, heads: map<Key, Fact>, keys: seq<Key>, start: I64,
                          step: U32, count: nat, groups: seq<Group>, n: nat, output: seq<Option<seq<Slot>>>)
    requires CatalogOk(units, tables) && AllKeysOk(tables, keys) && n <= |groups|
  {
    |output| == |keys| && forall g, p | 0 <= g < n && 0 <= p < |keys| && groups[g].table == keys[p].table ::
      output[p].Some? && |output[p].value| == count && SampleOf(units, tables, heads, keys[p], start, step,
                                                              output[p].value)
  }

  lemma NothingSampled(units: seq<Unit>, tables: map<nat, Table>, heads: map<Key, Fact>, keys: seq<Key>, start: I64,
                       step: U32, count: nat, groups: seq<Group>, output: seq<Option<seq<Slot>>>)
    requires CatalogOk(units, tables) && AllKeysOk(tables, keys) && |output| == |keys|
    ensures Sampled(units, tables, heads, keys, start, step, count, groups, 0, output)
  {
  }

  lemma SampledGroup(units: seq<Unit>, tables: map<nat, Table>, heads: map<Key, Fact>, keys: seq<Key>, start: I64,
                     step: U32, count: nat, groups: seq<Group>, n: nat, before: seq<Option<seq<Slot>>>,
                     after: seq<Option<seq<Slot>>>, values: seq<seq<Slot>>)
    requires CatalogOk(units, tables) && AllKeysOk(tables, keys) && n < |groups| && GroupFits(keys, groups[n])
    requires Sampled(units, tables, heads, keys, start, step, count, groups, n, before) && |after| == |keys|
    requires AllKeysOk(tables, groups[n].keys) && |values| == |groups[n].keys|
    requires forall j | 0 <= j < |values| ::
      |values[j]| == count && SampleOf(units, tables, heads, groups[n].keys[j], start, step, values[j])
    requires forall j | 0 <= j < |values| :: AllSet(after, groups[n].destinations[j], values[j])
    requires forall q: nat | q < |before| && !Named(groups[n].destinations, |groups[n].destinations|, q) ::
      after[q] == before[q]
    ensures Sampled(units, tables, heads, keys, start, step, count, groups, n + 1, after)
  {
    hide CatalogOk, KeyOk, SampleOf, GroupFits, Named, AllSet;
    forall g, p | 0 <= g < n + 1 && 0 <= p < |keys| && groups[g].table == keys[p].table
      ensures after[p].Some? && |after[p].value| == count
      ensures SampleOf(units, tables, heads, keys[p], start, step, after[p].value)
    {
      FitsSize(keys, groups[n]);
      Scattered(keys, groups[n], before, after, values, p);
    }
  }

  lemma AllSampled(units: seq<Unit>, tables: map<nat, Table>, heads: map<Key, Fact>, keys: seq<Key>, start: I64,
                   step: U32, count: nat, groups: seq<Group>, output: seq<Option<seq<Slot>>>)
    requires CatalogOk(units, tables) && AllKeysOk(tables, keys) && Covers(keys, groups)
    requires Sampled(units, tables, heads, keys, start, step, count, groups, |groups|, output)
    ensures |output| == |keys|
    ensures forall p | 0 <= p < |keys| ::
      output[p].Some? && |output[p].value| == count && SampleOf(units, tables, heads, keys[p], start, step,
                                                              output[p].value)
  {
    hide CatalogOk, KeyOk, SampleOf, GroupFits;
    forall p | 0 <= p < |keys|
      ensures output[p].Some? && |output[p].value| == count
      ensures SampleOf(units, tables, heads, keys[p], start, step, output[p].value)
    {
      var g :| 0 <= g < |groups| && groups[g].table == keys[p].table;
    }
  }
}
