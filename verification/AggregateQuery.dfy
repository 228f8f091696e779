/** Aggregates of a batch of keys: the facts of each key stream past once and end in buckets. */
module AggregateQuery {
  import opened Prelude
  import opened Cells
  import opened Catalog
  import opened Lookups
  import opened Ranges
  import opened Grouping
  import opened Sampling
  import opened Buckets
  import opened Aggregation
  import opened AggregateMeanings
  import Sequences

  // What the buckets of a key are about.
  function WindowFor(tables: map<nat, Table>, k: Key, start: I64, end: I64, width: U32): Window
    requires KeyOk(tables, k)
  {
    var t := tables[k.table];
    Window(start, end, width, Last(t.versions).fields[k.field], t.lastTs)
  }

  /** The buckets of a key are exactly those of its facts in the range. */
  ghost predicate Aggregated(units: seq<Unit>, tables: map<nat, Table>, k: Key, start: I64, end: I64, width: U32,
                             buckets: seq<Bucket>)
    requires CatalogOk(units, tables) && KeyOk(tables, k) && width > 0 && start <= end
  {
    var w := WindowFor(tables, k, start, end, width);
    Grouped(w, RangeFacts(units, tables, k, start, end), Count(w), buckets)
  }

  // Every key has a sane table, and its facts in the range are of the type the table now has for it.
  ghost predicate Aggregable(units: seq<Unit>, tables: map<nat, Table>, keys: seq<Key>, start: I64, end: I64)
    requires CatalogOk(units, tables) && AllKeysOk(tables, keys)
  {
    UnitsSorted(units) && forall i | 0 <= i < |keys| ::
      && Sane(units, keys[i].table, TableOf(tables, keys[i]))
      && AllMatch(Last(TableOf(tables, keys[i]).versions).fields[keys[i].field],
                  RangeFacts(units, tables, keys[i], start, end))
  }

  predicate AllMatch(kind: ValueType, fs: seq<Fact>) { forall f | f in fs :: Matches(kind, f.value) }

  lemma GroupAggregable(units: seq<Unit>, tables: map<nat, Table>, keys: seq<Key>, g: Group, start: I64, end: I64)
    requires CatalogOk(units, tables) && AllKeysOk(tables, keys) && GroupFits(keys, g)
    ensures AllKeysOk(tables, g.keys) && g.keys != [] && GroupOk(tables, g.keys[0].table, g.keys)
    ensures Aggregable(units, tables, keys, start, end) ==> Aggregable(units, tables, g.keys, start, end)
  {
    hide CatalogOk, Asks, Increasing, Sane, RangeFacts, UnitsSorted, AllMatch;
    GroupKeysOk(tables, keys, g);
    if Aggregable(units, tables, keys, start, end) {
      forall j | 0 <= j < |g.keys|
        ensures Sane(units, g.keys[j].table, TableOf(tables, g.keys[j]))
        ensures AllMatch(Last(TableOf(tables, g.keys[j]).versions).fields[g.keys[j].field],
                         RangeFacts(units, tables, g.keys[j], start, end))
      {
        var p :| 0 <= p < |keys| && keys[p] == g.keys[j];
      }
    }
  }

  // ------------------------------------------------------------------ one group

  // The streams of a group share nothing, so feeding one leaves the others.
  ghost predicate Separate(states: seq<AggregateState>)
    reads states
  {
    && (forall i, j | 0 <= i < j < |states| :: states[i] != states[j])
    && (forall i, j | 0 <= i < |states| && 0 <= j < |states| && i != j ::
          states[i].current == null || states[i].current != states[j].current)
  }

  ghost function Footprint(states: seq<AggregateState>): set<object>
    reads states
  {
    (set s | s in states :: s as object) + (set s | s in states && s.current != null :: s.current as object)
  }

  // Each stream has seen the visits of its key so far.
  ghost predicate Streaming(states: seq<AggregateState>, ws: seq<Window>, visits: seq<Visit>)
    requires |states| == |ws|
    reads states, Footprint(states)
  {
    forall i | 0 <= i < |states| :: states[i].w == ws[i] && states[i].seen == VisitsOf(visits, i) && states[i].Valid()
  }

  method NewStates(ws: seq<Window>) returns (states: seq<AggregateState>)
    requires forall i | 0 <= i < |ws| :: WindowOk(ws[i])
    ensures |states| == |ws| && Separate(states) && fresh(Footprint(states)) && Streaming(states, ws, [])
  {
    hide WindowOk;
    states := [];
    for i := 0 to |ws|
      invariant |states| == i && (forall s | s in states :: fresh(s) && s.current == null)
      invariant (forall a, b | 0 <= a < b < i :: states[a] != states[b])
      invariant forall a | 0 <= a < i :: states[a].w == ws[a] && states[a].seen == [] && states[a].Valid()
    {
      var s := new AggregateState(ws[i]);
      states := states + [s];
    }
  }

  // Feeds one visit to the stream of its key.
  method ObserveVisit(states: seq<AggregateState>, ws: seq<Window>, ghost visits: seq<Visit>, v: Visit)
    returns (r: Result<()>)
    requires |states| == |ws| && Separate(states) && Streaming(states, ws, visits)
    requires v.index < |states| ==> Feed(ws[v.index], VisitsOf(visits + [v], v.index))
    modifies Footprint(states)
    ensures r.Ok? ==>
      Separate(states) && Streaming(states, ws, visits + [v]) && fresh(Footprint(states) - old(Footprint(states)))
    ensures r.Err? ==> v.index < |states| && !Matches(ws[v.index].kind, v.fact.value)
  {
    hide VisitsOf, Feed;
    VisitsNext(visits, v);
    Unmoved(visits, v);
    if v.index >= |states| { return Ok(()); }
    var s := states[v.index];
    assert s in states;
    r := s.Observe(v.fact);
  }

  lemma Unmoved(visits: seq<Visit>, v: Visit)
    requires forall i: nat :: VisitsOf(visits + [v], i) == VisitsOf(visits, i) + (if v.index == i then [v.fact] else [])
    ensures forall i: nat | i != v.index :: VisitsOf(visits + [v], i) == VisitsOf(visits, i)
  {
    hide VisitsOf;
    forall i: nat | i != v.index
      ensures VisitsOf(visits + [v], i) == VisitsOf(visits, i)
    {
      Sequences.Neutral(VisitsOf(visits, i));
    }
  }

  function Windows(tables: map<nat, Table>, keys: seq<Key>, start: I64, end: I64, width: U32): seq<Window>
    requires AllKeysOk(tables, keys)
  {
    seq(|keys|, i requires 0 <= i < |keys| => WindowFor(tables, keys[i], start, end, width))
  }

  // Each prefix of the visits of a key feeds its stream.
  lemma VisitFeeds(w: Window, visits: seq<Visit>, n: nat, i: nat)
    requires n <= |visits| && Feed(w, VisitsOf(visits, i))
    ensures Feed(w, VisitsOf(visits[..n], i))
  {
    VisitsPrefix(visits, n, i);
    var part, all := VisitsOf(visits[..n], i), VisitsOf(visits, i);
    forall f | f in part ensures f in all {
      var j :| 0 <= j < |part| && part[j] == f;
      assert all[j] == f;
    }
  }

  lemma RangeFeeds(w: Window, fs: seq<Fact>)
    requires Ascending(InRange(fs, w.start, w.end))
    ensures Feed(w, InRange(fs, w.start, w.end))
  {
    InRangeIs(fs, w.start, w.end);
  }

  /** Aggregates the keys of one table in one pass over their facts. */
  method AggregateGroup(units: seq<Unit>, tables: map<nat, Table>, keys: seq<Key>, start: I64, end: I64, width: U32)
    returns (r: Result<seq<seq<Bucket>>>)
    requires CatalogOk(units, tables) && AllKeysOk(tables, keys) && keys != [] && width > 0 && start <= end
    requires forall i | 0 <= i < |keys| :: keys[i].table == keys[0].table
    ensures r.Ok? ==> |r.value| == |keys|
    ensures r.Ok? ==> forall i | 0 <= i < |keys| :: Aggregated(units, tables, keys[i], start, end, width, r.value[i])
    ensures GroupOk(tables, keys[0].table, keys) && Aggregable(units, tables, keys, start, end) ==> r.Ok?
  {
    hide KeyOk, UnitsOk, TablesOk, AllFacts, InRange, VisitsOf, Feed, Grouped, Sane, UnitsSorted, Ascending, Separate,
         Streaming;
    var visits :- VisitFacts(units, tables, keys, start, end);
    var ws := Windows(tables, keys, start, end, width);
    var states := NewStates(ws);
    KeysFeed(units, tables, keys, start, end, width, visits);
    for n := 0 to |visits|
      invariant Separate(states) && fresh(Footprint(states)) && Streaming(states, ws, visits[..n])
    {
      assert visits[..n + 1] == visits[..n] + [visits[n]];
      if visits[n].index < |keys| { VisitFeeds(ws[visits[n].index], visits, n + 1, visits[n].index); }
      var observed := ObserveVisit(states, ws, visits[..n], visits[n]);
      if observed.Err? {
        Mismatch(units, tables, keys, start, end, visits, n);
        return Err(observed.error);
      }
    }
    Sequences.Neutral(visits);
    r := FinishAll(states, ws, visits);
  }

  // A visit of another type is a fact of another type.
  lemma Mismatch(units: seq<Unit>, tables: map<nat, Table>, keys: seq<Key>, start: I64, end: I64, visits: seq<Visit>,
                 n: nat)
    requires CatalogOk(units, tables) && AllKeysOk(tables, keys) && n < |visits| && visits[n].index < |keys|
    requires var i := visits[n].index;
      && VisitsOf(visits, i) == RangeFacts(units, tables, keys[i], start, end)
      && !Matches(Last(TableOf(tables, keys[i]).versions).fields[keys[i].field], visits[n].fact.value)
    ensures !Aggregable(units, tables, keys, start, end)
  {
    hide CatalogOk, Sane, RangeFacts, UnitsSorted, VisitsOf, Matches;
    NextVisit(visits, n);
  }

  lemma KeysFeed(units: seq<Unit>, tables: map<nat, Table>, keys: seq<Key>, start: I64, end: I64, width: U32,
                 visits: seq<Visit>)
    requires CatalogOk(units, tables) && AllKeysOk(tables, keys) && keys != []
    requires forall i | 0 <= i < |keys| :: keys[i].table == keys[0].table
    requires forall i | 0 <= i < |keys| ::
      && VisitsOf(visits, i) == InRange(AllFacts(units, tables[keys[0].table], keys[i]), start, end)
      && Ascending(VisitsOf(visits, i))
    ensures forall i | 0 <= i < |keys| ::
      && Feed(Windows(tables, keys, start, end, width)[i], VisitsOf(visits, i))
      && VisitsOf(visits, i) == RangeFacts(units, tables, keys[i], start, end)
  {
    hide UnitsOk, TablesOk, AllFacts, InRange, VisitsOf, Feed, Ascending;
    forall i | 0 <= i < |keys| ensures Feed(Windows(tables, keys, start, end, width)[i], VisitsOf(visits, i)) {
      RangeFeeds(Windows(tables, keys, start, end, width)[i], AllFacts(units, tables[keys[0].table], keys[i]));
    }
  }

  // Closes every stream.
  method FinishAll(states: seq<AggregateState>, ws: seq<Window>, ghost visits: seq<Visit>)
    returns (r: Result<seq<seq<Bucket>>>)
    requires |states| == |ws| && Streaming(states, ws, visits) && forall i | 0 <= i < |ws| ::
      WindowOk(ws[i]) && ws[i].start <= ws[i].end
    ensures r.Ok? && |r.value| == |ws|
    ensures forall i | 0 <= i < |ws| :: Grouped(ws[i], VisitsOf(visits, i), Count(ws[i]), r.value[i])
  {
    hide VisitsOf, Grouped;
    var values: seq<seq<Bucket>> := [];
    for i := 0 to |states|
      invariant |values| == i && forall a | 0 <= a < i :: Grouped(ws[a], VisitsOf(visits, a), Count(ws[a]), values[a])
    {
      var buckets := states[i].Buckets();
      if buckets.Err? { return Err(Corruption); }
      values := values + [buckets.value];
    }
    return Ok(values);
  }

  // ---------------------------------------------------------------- all groups

  // The buckets that are in place so far.
  ghost predicate Aggregating(units: seq<Unit>, tables: map<nat, Table>, keys: seq<Key>, start: I64, end: I64,
                              width: U32, groups: seq<Group>, n: nat, output: seq<Option<seq<Bucket>>>)
    requires CatalogOk(units, tables) && AllKeysOk(tables, keys) && n <= |groups| && width > 0 && start <= end
  {
    |output| == |keys| && forall g, p | 0 <= g < n && 0 <= p < |keys| && groups[g].table == keys[p].table ::
      output[p].Some? && Aggregated(units, tables, keys[p], start, end, width, output[p].value)
  }

  lemma AggregatedGroup(units: seq<Unit>, tables: map<nat, Table>, keys: seq<Key>, start: I64, end: I64, width: U32,
                        groups: seq<Group>, n: nat, before: seq<Option<seq<Bucket>>>, after: seq<Option<seq<Bucket>>>,
                        values: seq<seq<Bucket>>)
    requires CatalogOk(units, tables) && AllKeysOk(tables, keys) && width > 0 && start <= end
    requires n < |groups| && GroupFits(keys, groups[n])
    requires Aggregating(units, tables, keys, start, end, width, groups, n, before)
    requires |after| == |keys| && AllKeysOk(tables, groups[n].keys) && |values| == |groups[n].keys|
    requires forall j | 0 <= j < |values| :: Aggregated(units, tables, groups[n].keys[j], start, end, width, values[j])
    requires forall j | 0 <= j < |values| :: AllSet(after, groups[n].destinations[j], values[j])
    requires forall q: nat | q < |before| && !Named(groups[n].destinations, |groups[n].destinations|, q) ::
      after[q] == before[q]
    ensures Aggregating(units, tables, keys, start, end, width, groups, n + 1, after)
  {
    hide CatalogOk, KeyOk, Aggregated, GroupFits, Named, AllSet;
    forall g, p | 0 <= g < n + 1 && 0 <= p < |keys| && groups[g].table == keys[p].table
      ensures after[p].Some? && Aggregated(units, tables, keys[p], start, end, width, after[p].value)
    {
      FitsSize(keys, groups[n]);
      Scattered(keys, groups[n], before, after, values, p);
    }
  }

  /** What the buckets of a key say, in terms of its table and the arguments alone. */
  lemma AggregatedDescribes(units: seq<Unit>, tables: map<nat, Table>, k: Key, start: I64, end: I64, width: U32,
                            buckets: seq<Bucket>)
    requires CatalogOk(units, tables) && KeyOk(tables, k) && width > 0 && start <= end
    requires Aggregated(units, tables, k, start, end, width, buckets)
    ensures var t := tables[k.table];
      Describes(t.lastTs, start, end, width, Last(t.versions).fields[k.field], AllFacts(units, t, k), buckets)
  {
    hide UnitsOk, TablesOk, AllFacts, InRange, Grouped, Describes, Count;
    var t, w := tables[k.table], WindowFor(tables, k, start, end, width);
    GroupedDescribes(w, RangeFacts(units, tables, k, start, end), buckets);
    DescribesWider(w.latest, start, end, width, w.kind, AllFacts(units, t, k), buckets);
  }

  lemma AllDescribed(units: seq<Unit>, tables: map<nat, Table>, keys: seq<Key>, start: I64, end: I64, width: U32,
                     answers: seq<seq<Bucket>>)
    requires CatalogOk(units, tables) && AllKeysOk(tables, keys) && width > 0 && start <= end && |answers| == |keys|
    requires forall i | 0 <= i < |keys| :: Aggregated(units, tables, keys[i], start, end, width, answers[i])
    ensures forall i | 0 <= i < |keys| ::
      var t := tables[keys[i].table];
      Describes(t.lastTs, start, end, width, Last(t.versions).fields[keys[i].field], AllFacts(units, t, keys[i]),
                answers[i])
  {
    hide UnitsOk, TablesOk, Aggregated, AllFacts, Describes;
    forall i | 0 <= i < |keys|
      ensures var t := tables[keys[i].table];
        Describes(t.lastTs, start, end, width, Last(t.versions).fields[keys[i].field], AllFacts(units, t, keys[i]),
                  answers[i])
    {
      AggregatedDescribes(units, tables, keys[i], start, end, width, answers[i]);
    }
  }

  lemma AllAggregated(units: seq<Unit>, tables: map<nat, Table>, keys: seq<Key>, start: I64, end: I64, width: U32,
                      groups: seq<Group>, output: seq<Option<seq<Bucket>>>)
    requires CatalogOk(units, tables) && AllKeysOk(tables, keys) && Covers(keys, groups) && width > 0 && start <= end
    requires Aggregating(units, tables, keys, start, end, width, groups, |groups|, output)
    ensures |output| == |keys|
    ensures forall p | 0 <= p < |keys| ::
      output[p].Some? && Aggregated(units, tables, keys[p], start, end, width, output[p].value)
  {
    hide CatalogOk, KeyOk, Aggregated, GroupFits;
    forall p | 0 <= p < |keys|
      ensures output[p].Some? && Aggregated(units, tables, keys[p], start, end, width, output[p].value)
    {
      var g :| 0 <= g < |groups| && groups[g].table == keys[p].table;
    }
  }

  lemma GroupTable(keys: seq<Key>, g: Group)
    requires GroupFits(keys, g)
    ensures g.keys != [] && forall i | 0 <= i < |g.keys| :: g.keys[i].table == g.keys[0].table
  {
  }

  /**
   Aggregates a batch over a range: position `i` holds one bucket for each window of the range
   in which key `i` has a fact, in order, and each is exactly about the facts of its window.
   `size` is what one bucket takes in memory.
   */
  method Aggregate(units: seq<Unit>, tables: map<nat, Table>, keys: seq<Key>, start: I64, end: I64, width: U32,
                   floor: Option<I64>, size: nat)
    returns (r: Result<seq<seq<Bucket>>>)
    requires CatalogOk(units, tables)
    ensures r.Ok? ==> AllKeysOk(tables, keys) && start <= end && width > 0 && (floor.Some? ==> floor.value <= start)
    ensures r.Ok? ==> |r.value| == |keys|
    ensures r.Ok? ==> forall i | 0 <= i < |keys| :: Aggregated(units, tables, keys[i], start, end, width, r.value[i])
    ensures r.Ok? ==> forall i | 0 <= i < |keys| ::
      var t := tables[keys[i].table];
      Describes(t.lastTs, start, end, width, Last(t.versions).fields[keys[i].field], AllFacts(units, t, keys[i]),
                r.value[i])
    ensures r.Ok? ==>
      exists count: nat :: CountsWindows(start, end, width, count) && FitsOperation(count * |keys|, size)
    ensures r.Err? ==>
      || start > end || width == 0 || (floor.Some? && start < floor.value) || !AllKeysOk(tables, keys)
      || !Aggregable(units, tables, keys, start, end)
      || exists count: nat :: CountsWindows(start, end, width, count) && !FitsOperation(count * |keys|, size)
  {
    hide KeyOk, CatalogOk, GroupFits, Named, AllSet, Within, Aggregating, Aggregated, Aggregable, GroupOk,
         CountsWindows, FitsOperation;
    if start > end || width == 0 { return Err(Invalid); }
    if floor.Some? && start < floor.value { return Err(Invalid); }
    var count := Windowed(start, end, width);
    var total := count * |keys|;
    OperationLimits(total, size);
    if total > MAX_QUERY_SLOTS || total * size > MAX_OPERATION_MEMORY_BYTES { return Err(Limit); }
    var _ :- ValidateKeys(tables, keys);
    var groups := GroupKeys(keys);
    var output: seq<Option<seq<Bucket>>> := seq(|keys|, _ => None);
    NothingAggregated(units, tables, keys, start, end, width, groups, output);
    for g := 0 to |groups|
      invariant |output| == |keys| && Aggregating(units, tables, keys, start, end, width, groups, g, output)
    {
      GroupKeysOk(tables, keys, groups[g]);
      GroupTable(keys, groups[g]);
      GroupAggregable(units, tables, keys, groups[g], start, end);
      var values :- AggregateGroup(units, tables, groups[g].keys, start, end, width);
      DestinationsApart(keys, groups[g]);
      var scattered := Scatter(output, groups[g].destinations, values);
      if scattered.Err? { return Err(Corruption); }
      AggregatedGroup(units, tables, keys, start, end, width, groups, g, output, scattered.value, values);
      output := scattered.value;
    }
    AllAggregated(units, tables, keys, start, end, width, groups, output);
    r := Collect(output);
    if r.Ok? { AllDescribed(units, tables, keys, start, end, width, r.value); }
  }

  // So many windows begin in a range.
  ghost predicate CountsWindows(start: int, end: int, width: nat, count: nat) {
    forall n: nat :: n < count <==> start + n * width < end
  }

  // Neither too many buckets, nor too much memory for them.
  predicate FitsOperation(total: nat, size: nat) { total <= 1_048_576 && FitsMemory(total, size) }

  lemma OperationLimits(total: nat, size: nat)
    ensures FitsOperation(total, size) <==> total <= MAX_QUERY_SLOTS && total * size <= MAX_OPERATION_MEMORY_BYTES
  {
    MemoryLimit(total, size);
  }

  // How many windows a range has.
  method Windowed(start: I64, end: I64, width: U32) returns (count: nat)
    requires start <= end && width > 0
    ensures CountsWindows(start, end, width, count)
  {
    if start == end {
      MulRises(width);
      return 0;
    }
    count := (end - start + (width - 1)) / width;
    GridSize(end - start, width, count);
  }

  lemma MulRises(width: nat)
    ensures forall n: nat :: n * width >= 0
  {
  }

  lemma NothingAggregated(units: seq<Unit>, tables: map<nat, Table>, keys: seq<Key>, start: I64, end: I64, width: U32,
                          groups: seq<Group>, output: seq<Option<seq<Bucket>>>)
    requires CatalogOk(units, tables) && AllKeysOk(tables, keys) && width > 0 && start <= end && |output| == |keys|
    ensures Aggregating(units, tables, keys, start, end, width, groups, 0, output)
  {
  }
}
