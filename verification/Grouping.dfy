/** Grouping the keys of a batch by table, without duplicates, and putting the answers back. */
module Grouping {
  import opened Prelude
  import opened Catalog
  import opened Lookups

  /** The distinct keys of one table in order, and the positions that asked for each. */
  datatype Group = Group(table: nat, keys: seq<Key>, destinations: seq<seq<nat>>)

  predicate GroupFits(keys: seq<Key>, g: Group) {
    && g.keys != [] && Increasing(g.keys) && |g.destinations| == |g.keys|
    && (forall j | 0 <= j < |g.keys| ::
          g.keys[j].table == g.table && g.keys[j] in keys && Asks(keys, g.keys[j], g.destinations[j]))
    && forall p | 0 <= p < |keys| && keys[p].table == g.table :: keys[p] in g.keys
  }

  // Exactly the positions of a key.
  predicate Asks(keys: seq<Key>, k: Key, positions: seq<nat>) {
    && (forall x | 0 <= x < |positions| :: positions[x] < |keys| && keys[positions[x]] == k)
    && forall p | 0 <= p < |keys| && keys[p] == k :: p in positions
  }

  /** Every table that is asked for has one group. */
  predicate Covers(keys: seq<Key>, groups: seq<Group>) {
    && (forall g | 0 <= g < |groups| :: GroupFits(keys, groups[g]))
    && (forall a, b | 0 <= a < b < |groups| :: groups[a].table != groups[b].table)
    && (forall p | 0 <= p < |keys| :: exists g :: 0 <= g < |groups| && groups[g].table == keys[p].table)
  }

  // ----------------------------------------------------------------- grouping

  lemma {:induction false} LeastKey(todo: set<Key>) returns (least: Key)
    requires todo != {}
    ensures least in todo && forall o | o in todo :: o == least || Less(least, o)
    decreases |todo|
  {
    var k :| k in todo;
    var rest := todo - {k};
    if rest == {} {
      least := k;
      assert todo == {k};
    } else {
      var l := LeastKey(rest);
      least := if Less(k, l) then k else l;
      forall o | o in todo ensures o == least || Less(least, o) {
        LessOrder(k, l, o);
        assert o != k ==> o in rest;
      }
    }
  }

  lemma LessOrder(a: Key, b: Key, c: Key)
    ensures Less(a, b) || a == b || Less(b, a)
    ensures Less(a, b) && Less(b, c) ==> Less(a, c)
  {
  }

  /** The keys of a set, smallest first. */
  method Sorted(all: set<Key>) returns (keys: seq<Key>)
    ensures Increasing(keys) && forall k :: k in keys <==> k in all
  {
    hide Less;
    keys := [];
    var todo := all;
    while todo != {}
      invariant todo <= all && Increasing(keys) && forall k :: k in keys <==> k in all - todo
      invariant keys != [] ==> forall o | o in todo :: Less(Last(keys), o)
      decreases |todo|
    {
      ghost var least := LeastKey(todo);
      var k :| k in todo && forall o | o in todo :: o == k || Less(k, o);
      todo := todo - {k};
      keys := keys + [k];
    }
  }

  method Destinations(keys: seq<Key>, k: Key) returns (positions: seq<nat>)
    ensures Asks(keys, k, positions)
  {
    positions := [];
    for i := 0 to |keys|
      invariant forall x | 0 <= x < |positions| :: positions[x] < i && keys[positions[x]] == k
      invariant forall p | 0 <= p < i && keys[p] == k :: p in positions
    {
      if keys[i] == k { positions := positions + [i]; }
    }
  }

  method OneGroup(keys: seq<Key>, table: nat) returns (g: Group)
    requires exists p :: 0 <= p < |keys| && keys[p].table == table
    ensures g.table == table && GroupFits(keys, g)
  {
    hide Asks, Increasing;
    var wanted := set k | k in keys && k.table == table;
    var sorted := Sorted(wanted);
    ghost var p :| 0 <= p < |keys| && keys[p].table == table;
    assert keys[p] in wanted && keys[p] in sorted;
    var destinations: seq<seq<nat>> := [];
    for j := 0 to |sorted|
      invariant |destinations| == j && forall i | 0 <= i < j :: Asks(keys, sorted[i], destinations[i])
    {
      var positions := Destinations(keys, sorted[j]);
      destinations := destinations + [positions];
    }
    g := Group(table, sorted, destinations);
    forall j | 0 <= j < |sorted| ensures sorted[j].table == table && sorted[j] in keys { assert sorted[j] in wanted; }
    forall q | 0 <= q < |keys| && keys[q].table == table ensures keys[q] in sorted { assert keys[q] in wanted; }
  }

  // The tables still to do, and a group for each of the others.
  ghost predicate Gathered(keys: seq<Key>, groups: seq<Group>, todo: set<nat>) {
    && (forall t | t in todo :: exists p :: 0 <= p < |keys| && keys[p].table == t)
    && (forall g | 0 <= g < |groups| :: GroupFits(keys, groups[g]) && groups[g].table !in todo)
    && (forall a, b | 0 <= a < b < |groups| :: groups[a].table != groups[b].table)
    && (forall p | 0 <= p < |keys| && keys[p].table !in todo ::
          exists g :: 0 <= g < |groups| && groups[g].table == keys[p].table)
  }

  /** Groups a batch: one group for each table, holding all its keys and their positions. */
  method GroupKeys(keys: seq<Key>) returns (groups: seq<Group>)
    ensures Covers(keys, groups)
  {
    hide GroupFits, Gathered;
    groups := [];
    var todo := set k | k in keys :: k.table;
    NothingGathered(keys, todo);
    while todo != {}
      invariant Gathered(keys, groups, todo)
      decreases |todo|
    {
      var table :| table in todo;
      AskedFor(keys, groups, todo, table);
      var g := OneGroup(keys, table);
      GroupAdded(keys, groups, g, todo);
      todo := todo - {table};
      groups := groups + [g];
    }
    AllGathered(keys, groups, todo);
  }

  lemma NothingGathered(keys: seq<Key>, todo: set<nat>)
    requires todo == set k | k in keys :: k.table
    ensures Gathered(keys, [], todo)
  {
    forall p | 0 <= p < |keys| ensures keys[p].table in todo { assert keys[p] in keys; }
  }

  lemma AskedFor(keys: seq<Key>, groups: seq<Group>, todo: set<nat>, table: nat)
    requires Gathered(keys, groups, todo) && table in todo
    ensures exists p :: 0 <= p < |keys| && keys[p].table == table
  {
    hide GroupFits;
  }

  lemma AllGathered(keys: seq<Key>, groups: seq<Group>, todo: set<nat>)
    requires Gathered(keys, groups, todo) && todo == {}
    ensures Covers(keys, groups)
  {
    hide GroupFits;
    forall p | 0 <= p < |keys| ensures exists g :: 0 <= g < |groups| && groups[g].table == keys[p].table {
      assert keys[p].table !in todo;
      var g :| 0 <= g < |groups| && groups[g].table == keys[p].table;
    }
    assert forall p | 0 <= p < |keys| :: exists g :: 0 <= g < |groups| && groups[g].table == keys[p].table;
  }

  lemma GroupAdded(keys: seq<Key>, groups: seq<Group>, g: Group, todo: set<nat>)
    requires Gathered(keys, groups, todo) && g.table in todo && GroupFits(keys, g)
    ensures Gathered(keys, groups + [g], todo - {g.table})
  {
    hide GroupFits;
    var more := groups + [g];
    forall t | t in todo - {g.table} ensures exists p :: 0 <= p < |keys| && keys[p].table == t { assert t in todo; }
    forall x | 0 <= x < |more| ensures GroupFits(keys, more[x]) && more[x].table !in todo - {g.table} {
      assert x < |groups| ==> more[x] == groups[x];
    }
    forall x, y | 0 <= x < y < |more| ensures more[x].table != more[y].table {
      assert more[x] == groups[x] && (y < |groups| ==> more[y] == groups[y]);
    }
    forall p | 0 <= p < |keys| && keys[p].table !in todo - {g.table}
      ensures exists x :: 0 <= x < |more| && more[x].table == keys[p].table
    {
      if keys[p].table == g.table {
        assert more[|groups|].table == keys[p].table;
      } else {
        var x :| 0 <= x < |groups| && groups[x].table == keys[p].table;
        assert more[x].table == keys[p].table;
      }
    }
  }

  // --------------------------------------------------------------- scattering

  // Whether one of the first position lists names a position.
  predicate Named(destinations: seq<seq<nat>>, n: nat, p: nat)
    requires n <= |destinations|
  {
    exists j :: 0 <= j < n && p in destinations[j]
  }

  predicate AllSet<T(==)>(output: seq<Option<T>>, positions: seq<nat>, value: T) {
    forall p | p in positions :: p < |output| && output[p] == Some(value)
  }

  predicate Apart(a: seq<nat>, b: seq<nat>) { forall p | p in a :: p !in b }

  // No position lies behind the end.
  predicate Within(destinations: seq<seq<nat>>, size: nat) {
    forall j | 0 <= j < |destinations| :: forall p | p in destinations[j] :: p < size
  }

  /** Puts each value at all its positions; the lists of positions must be disjoint. */
  method Scatter<T(==)>(output: seq<Option<T>>, destinations: seq<seq<nat>>, values: seq<T>)
    returns (r: Result<seq<Option<T>>>)
    requires forall i, j | 0 <= i < j < |destinations| :: Apart(destinations[i], destinations[j])
    ensures r.Ok? ==> |destinations| == |values| && |r.value| == |output|
    ensures r.Ok? ==> forall j | 0 <= j < |values| :: AllSet(r.value, destinations[j], values[j])
    ensures r.Ok? ==> forall p: nat | p < |output| && !Named(destinations, |destinations|, p) :: r.value[p] == output[p]
    ensures r.Ok? <==> |destinations| == |values| && Within(destinations, |output|)
  {
    if |destinations| != |values| { return Err(Corruption); }
    var after := output;
    for j := 0 to |values|
      invariant |after| == |output|
      invariant forall i | 0 <= i < j :: AllSet(after, destinations[i], values[i])
      invariant forall p: nat | p < |output| && !Named(destinations, j, p) :: after[p] == output[p]
    {
      ghost var was := after;
      var put := PutAll(after, destinations[j], values[j]);
      if put.Err? { return Err(Corruption); }
      after := put.value;
      forall i | 0 <= i < j + 1 ensures AllSet(after, destinations[i], values[i]) {
        if i < j { assert Apart(destinations[i], destinations[j]) && AllSet(was, destinations[i], values[i]); }
      }
      forall p: nat | p < |output| && !Named(destinations, j + 1, p) ensures after[p] == output[p] {
        assert p !in destinations[j];
        assert forall i | 0 <= i < j :: p !in destinations[i];
        assert !Named(destinations, j, p);
      }
    }
    return Ok(after);
  }

  // Puts one value at some positions.
  method PutAll<T(==)>(output: seq<Option<T>>, positions: seq<nat>, value: T) returns (r: Result<seq<Option<T>>>)
    ensures r.Ok? <==> forall p | p in positions :: p < |output|
    ensures r.Ok? ==> |r.value| == |output|
    ensures r.Ok? ==> forall p: nat | p < |output| :: r.value[p] == if p in positions then Some(value) else output[p]
  {
    var after := output;
    for x := 0 to |positions|
      invariant |after| == |output| && forall p | p in positions[..x] :: p < |output|
      invariant forall p: nat | p < |output| :: after[p] == if p in positions[..x] then Some(value) else output[p]
    {
      assert positions[x] in positions;
      if positions[x] >= |after| { return Err(Corruption); }
      after := after[positions[x] := Some(value)];
      assert positions[..x + 1] == positions[..x] + [positions[x]];
    }
    assert positions[..|positions|] == positions;
    return Ok(after);
  }

  /** The positions of different keys are different. */
  lemma DestinationsApart(keys: seq<Key>, g: Group)
    requires GroupFits(keys, g)
    ensures forall i, j | 0 <= i < j < |g.destinations| :: Apart(g.destinations[i], g.destinations[j])
    ensures forall j, p: nat | 0 <= j < |g.destinations| && p in g.destinations[j] :: p < |keys| && keys[p] == g.keys[j]
    ensures Within(g.destinations, |keys|)
  {
    forall j, p: nat | 0 <= j < |g.destinations| && p in g.destinations[j] ensures p < |keys| && keys[p] == g.keys[j] {
      assert Asks(keys, g.keys[j], g.destinations[j]);
      var x :| 0 <= x < |g.destinations[j]| && g.destinations[j][x] == p;
    }
    forall i, j | 0 <= i < j < |g.destinations| ensures Apart(g.destinations[i], g.destinations[j]) {
      KeyOnce(g.keys, i, g.keys[i]);
    }
  }

  /** Collects the answers; every position must have one. */
  method Collect<T(==)>(output: seq<Option<T>>) returns (r: Result<seq<T>>)
    ensures r.Ok? <==> forall p | 0 <= p < |output| :: output[p].Some?
    ensures r.Ok? ==> |r.value| == |output| && forall p | 0 <= p < |output| :: output[p] == Some(r.value[p])
  {
    var values: seq<T> := [];
    for i := 0 to |output|
      invariant |values| == i && forall p | 0 <= p < i :: output[p] == Some(values[p])
    {
      if output[i].None? { return Err(Corruption); }
      values := values + [output[i].value];
    }
    return Ok(values);
  }
}
