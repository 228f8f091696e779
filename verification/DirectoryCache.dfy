/**
 The cache of unit directories: it holds pages up to a budget and drops the least recently
 used ones first. Its clock is a 64-bit counter; when that runs out, the ticks are renumbered.
 */
module DirectoryCaches {
  import opened Prelude
  import Sequences

  const PAGE_OVERHEAD_BYTES: nat := 128
  const MAX_UNIT_SECTIONS: nat := 65_536

  // A directory entry: what orders it, and everything else about the section.
  datatype Entry = Entry(table: nat, minTs: I64, rest: nat)
  datatype Page = Page(entries: seq<Entry>, charge: nat, lastUsed: U64)

  predicate Before(a: Entry, b: Entry) { a.table < b.table || (a.table == b.table && a.minTs < b.minTs) }

  predicate Ordered(entries: seq<Entry>) { forall i, j | 0 <= i < j < |entries| :: Before(entries[i], entries[j]) }

  predicate EntriesOk(entries: seq<Entry>) { entries != [] && Ordered(entries) && |entries| <= MAX_UNIT_SECTIONS }

  predicate Distinct(ids: seq<U64>) { forall i, j | 0 <= i < j < |ids| :: ids[i] != ids[j] }

  // ------------------------------------------------------------ least recently used

  // A page moves to the end when it is used.
  function Without(ids: seq<U64>, id: U64): seq<U64> {
    if ids == [] then [] else if ids[0] == id then ids[1..] else [ids[0]] + Without(ids[1..], id)
  }

  function Touched(ids: seq<U64>, id: U64): seq<U64> { Without(ids, id) + [id] }

  function Charges(ids: seq<U64>, pages: map<U64, Page>): nat
    requires forall id | id in ids :: id in pages
  {
    if ids == [] then 0 else pages[ids[0]].charge + Charges(ids[1..], pages)
  }

  /** What is left when the oldest pages are dropped until the others fit into some room. */
  function Kept(ids: seq<U64>, pages: map<U64, Page>, room: nat): seq<U64>
    requires forall id | id in ids :: id in pages
  {
    if Charges(ids, pages) <= room then ids else Kept(ids[1..], pages, room)
  }

  /** It is the longest such end of the list. */
  lemma {:induction false} KeptIsLongest(ids: seq<U64>, pages: map<U64, Page>, room: nat)
    requires forall id | id in ids :: id in pages
    ensures exists n: nat :: n <= |ids| && Kept(ids, pages, room) == ids[n..]
                             && Charges(ids[n..], pages) <= room && forall m: nat | m < n ::
                               Charges(ids[m..], pages) > room
    decreases |ids|
  {
    assert ids[0..] == ids;
    if Charges(ids, pages) > room {
      KeptIsLongest(ids[1..], pages, room);
      var n: nat :| n <= |ids[1..]| && Kept(ids[1..], pages, room) == ids[1..][n..]
                    && Charges(ids[1..][n..], pages) <= room && forall m: nat | m < n ::
                      Charges(ids[1..][m..], pages) > room;
      assert ids[1..][n..] == ids[n + 1..];
      forall m: nat | m < n + 1 ensures Charges(ids[m..], pages) > room {
        if m > 0 { assert ids[1..][m - 1..] == ids[m..]; }
      }
    }
  }

  // ------------------------------------------------------------------- searching

  /** The entries of one table. */
  function OfTable(entries: seq<Entry>, table: nat): seq<Entry> {
    if entries == [] then []
    else (if entries[0].table == table then [entries[0]] else []) + OfTable(entries[1..], table)
  }

  lemma {:induction false} OfTableConcat(a: seq<Entry>, b: seq<Entry>, table: nat)
    ensures OfTable(a + b, table) == OfTable(a, table) + OfTable(b, table)
    decreases |a|
  {
    if a == [] {
      assert a + b == b;
      Sequences.Neutral(OfTable(b, table));
    } else {
      assert (a + b)[0] == a[0] && (a + b)[1..] == a[1..] + b;
      OfTableConcat(a[1..], b, table);
      Sequences.Associative(if a[0].table == table then [a[0]] else [], OfTable(a[1..], table), OfTable(b, table));
    }
  }

  lemma {:induction false} OfTableEnds(entries: seq<Entry>, table: nat)
    ensures (forall i | 0 <= i < |entries| :: entries[i].table == table) ==> OfTable(entries, table) == entries
    ensures (forall i | 0 <= i < |entries| :: entries[i].table != table) ==> OfTable(entries, table) == []
    decreases |entries|
  {
    if entries != [] {
      OfTableEnds(entries[1..], table);
      assert entries == [entries[0]] + entries[1..];
    }
  }

  // The first position at which the table is at least `bound`.
  method Partition(entries: seq<Entry>, bound: nat) returns (n: nat)
    requires Ordered(entries)
    ensures n <= |entries| && (forall i | 0 <= i < n :: entries[i].table < bound) && forall i | n <= i < |entries| ::
      bound <= entries[i].table
  {
    var low, high := 0, |entries|;
    while low < high
      invariant 0 <= low <= high <= |entries|
      invariant (forall i | 0 <= i < low :: entries[i].table < bound) && forall i | high <= i < |entries| ::
        bound <= entries[i].table
    {
      var mid := (low + high) / 2;
      if entries[mid].table < bound { low := mid + 1; } else { high := mid; }
    }
    return low;
  }

  lemma EarlierTable(entries: seq<Entry>, i: nat, last: nat, table: nat)
    requires i < |entries| && entries[i].table < table && forall j | last <= j < |entries| ::
      table + 1 <= entries[j].table
    ensures i < last
  {
  }

  lemma SliceIsTable(entries: seq<Entry>, first: nat, last: nat, table: nat)
    requires first <= |entries| && last <= |entries|
    requires (forall i | 0 <= i < first :: entries[i].table < table) && forall i | first <= i < |entries| ::
      table <= entries[i].table
    requires (forall i | 0 <= i < last :: entries[i].table < table + 1) && forall i | last <= i < |entries| ::
      table + 1 <= entries[i].table
    ensures first <= last && entries[first..last] == OfTable(entries, table)
  {
    hide OfTable;
    if first > 0 { EarlierTable(entries, first - 1, last, table); }
    var a, b, c := entries[..first], entries[first..last], entries[last..];
    assert entries == a + (b + c);
    forall i | 0 <= i < |b| ensures b[i].table == table { assert b[i] == entries[first + i]; }
    forall i | 0 <= i < |c| ensures c[i].table != table { assert c[i] == entries[last + i]; }
    MiddleIsTable(a, b, c, table);
  }

  lemma MiddleIsTable(a: seq<Entry>, b: seq<Entry>, c: seq<Entry>, table: nat)
    requires forall i | 0 <= i < |a| :: a[i].table != table
    requires forall i | 0 <= i < |b| :: b[i].table == table
    requires forall i | 0 <= i < |c| :: c[i].table != table
    ensures OfTable(a + (b + c), table) == b
  {
    hide OfTable;
    OfTableConcat(a, b + c, table);
    OfTableConcat(b, c, table);
    OfTableEnds(a, table);
    OfTableEnds(b, table);
    OfTableEnds(c, table);
    Sequences.Neutral(b);
  }

  // --------------------------------------------------------------------- recency

  predicate TicksRise(ids: seq<U64>, pages: map<U64, Page>)
    requires forall id | id in ids :: id in pages
  {
    forall i, j | 0 <= i < j < |ids| :: pages[ids[i]].lastUsed < pages[ids[j]].lastUsed
  }

  // The pages from the least to the most recently used one.
  ghost predicate Recent(recency: seq<U64>, pages: map<U64, Page>) {
    Distinct(recency) && (forall id :: id in recency <==> id in pages) && TicksRise(recency, pages)
  }

  // Pages and clock agree: every tick lies in the past.
  ghost predicate Ticking(pages: map<U64, Page>, clock: U64) { forall id | id in pages :: pages[id].lastUsed < clock }

  // The same pages but for their ticks.
  ghost predicate SamePages(a: map<U64, Page>, b: map<U64, Page>) {
    a.Keys == b.Keys && forall id | id in a :: a[id].entries == b[id].entries && a[id].charge == b[id].charge
  }

  lemma {:induction false} SameCharges(ids: seq<U64>, a: map<U64, Page>, b: map<U64, Page>)
    requires (forall id | id in ids :: id in a && id in b && a[id].charge == b[id].charge)
    ensures Charges(ids, a) == Charges(ids, b)
    decreases |ids|
  {
    if ids != [] { SameCharges(ids[1..], a, b); }
  }

  lemma {:induction false} ChargesJoin(a: seq<U64>, b: seq<U64>, pages: map<U64, Page>)
    requires forall id | id in a + b :: id in pages
    ensures (forall id | id in a :: id in pages) && (forall id | id in b :: id in pages)
    ensures Charges(a + b, pages) == Charges(a, pages) + Charges(b, pages)
    decreases |a|
  {
    assert forall id | id in a :: id in a + b;
    assert forall id | id in b :: id in a + b;
    if a == [] {
      assert a + b == b;
    } else {
      assert (a + b)[0] == a[0] && (a + b)[1..] == a[1..] + b;
      ChargesJoin(a[1..], b, pages);
    }
  }

  lemma {:induction false} ManyPages(ids: seq<U64>, pages: map<U64, Page>)
    requires (forall id | id in ids :: id in pages && pages[id].charge >= PAGE_OVERHEAD_BYTES)
    ensures |ids| * PAGE_OVERHEAD_BYTES <= Charges(ids, pages)
    decreases |ids|
  {
    if ids != [] { ManyPages(ids[1..], pages); }
  }

  lemma {:induction false} WithoutIs(ids: seq<U64>, id: U64)
    requires Distinct(ids)
    ensures Distinct(Without(ids, id)) && forall o :: o in Without(ids, id) <==> o in ids && o != id
    decreases |ids|
  {
    if ids != [] {
      assert ids == [ids[0]] + ids[1..];
      WithoutIs(ids[1..], id);
      assert ids[0] !in ids[1..];
    }
  }

  lemma {:induction false} ChargesWithout(ids: seq<U64>, id: U64, pages: map<U64, Page>)
    requires Distinct(ids) && id in ids && forall o | o in ids :: o in pages
    ensures (forall o | o in Without(ids, id) :: o in pages)
    ensures Charges(ids, pages) == Charges(Without(ids, id), pages) + pages[id].charge
    decreases |ids|
  {
    WithoutIs(ids, id);
    if ids[0] != id {
      assert ids == [ids[0]] + ids[1..];
      ChargesWithout(ids[1..], id, pages);
      var rest := Without(ids[1..], id);
      assert Without(ids, id) == [ids[0]] + rest && ([ids[0]] + rest)[1..] == rest;
    }
  }

  // Order survives when an element goes.
  lemma {:induction false} WithoutRises(ids: seq<U64>, id: U64, pages: map<U64, Page>)
    requires (forall o | o in ids :: o in pages) && Distinct(ids) && TicksRise(ids, pages)
    ensures (forall o | o in Without(ids, id) :: o in ids) && TicksRise(Without(ids, id), pages)
    decreases |ids|
  {
    WithoutIs(ids, id);
    if ids != [] && ids[0] != id {
      WithoutRises(ids[1..], id, pages);
      forall o | o in Without(ids[1..], id) ensures pages[ids[0]].lastUsed < pages[o].lastUsed {
        assert o in ids[1..];
        var j :| 0 <= j < |ids[1..]| && ids[1..][j] == o;
        assert ids[j + 1] == o;
      }
      FirstRises(ids[0], Without(ids[1..], id), pages);
    }
  }

  lemma FirstRises(id: U64, rest: seq<U64>, pages: map<U64, Page>)
    requires id in pages && (forall o | o in rest :: o in pages) && TicksRise(rest, pages)
    requires forall o | o in rest :: pages[id].lastUsed < pages[o].lastUsed
    ensures (forall o | o in [id] + rest :: o in pages) && TicksRise([id] + rest, pages)
  {
    var all := [id] + rest;
    forall i, j | 0 <= i < j < |all| ensures pages[all[i]].lastUsed < pages[all[j]].lastUsed {
      assert all[j] == rest[j - 1] && rest[j - 1] in rest;
      assert i > 0 ==> all[i] == rest[i - 1];
    }
  }

  /** Using a page with a newer tick moves it to the end. */
  lemma TouchKeeps(recency: seq<U64>, pages: map<U64, Page>, id: U64, tick: U64)
    requires Recent(recency, pages) && Ticking(pages, tick) && id in pages
    ensures Recent(Touched(recency, id), pages[id := pages[id].(lastUsed := tick)])
    ensures forall o | o in Touched(recency, id) :: o in pages
    ensures Charges(Touched(recency, id), pages[id := pages[id].(lastUsed := tick)]) == Charges(recency, pages)
  {
    hide Charges, Without;
    var after := pages[id := pages[id].(lastUsed := tick)];
    WithoutIs(recency, id);
    WithoutRises(recency, id, pages);
    ChargesWithout(recency, id, pages);
    var rest := Without(recency, id);
    ChargesJoin(rest, [id], after);
    SameCharges(rest, after, pages);
    ChargesOne(id, after);
    LastRises(rest, pages, after, id);
  }

  lemma ChargesOne(id: U64, pages: map<U64, Page>)
    requires id in pages
    ensures Charges([id], pages) == pages[id].charge
  {
    assert [id][1..] == [];
  }

  // A page with the newest tick goes last.
  lemma LastRises(rest: seq<U64>, pages: map<U64, Page>, after: map<U64, Page>, id: U64)
    requires Distinct(rest) && id !in rest && id in after && forall o | o in rest ::
      o in pages && o in after && after[o] == pages[o]
    requires TicksRise(rest, pages) && forall o | o in rest :: pages[o].lastUsed < after[id].lastUsed
    ensures Distinct(rest + [id]) && (forall o | o in rest + [id] :: o in after) && TicksRise(rest + [id], after)
  {
    var all := rest + [id];
    forall i, j | 0 <= i < j < |all| ensures all[i] != all[j] && after[all[i]].lastUsed < after[all[j]].lastUsed {
      assert all[i] == rest[i] && rest[i] in rest;
      assert j < |rest| ==> all[j] == rest[j] && rest[j] in rest;
    }
  }

  /** The directories of units, up to a budget of bytes. */
  class DirectoryCache {
    const budget: U32
    const entryBytes: nat
    var pages: map<U64, Page>
    var used: nat
    var clock: U64
    // The order of use, oldest first, whatever the clock says.
    ghost var recency: seq<U64>

    ghost predicate Valid()
      reads this
    {
      && Recent(recency, pages) && Ticking(pages, clock) && used == Charges(recency, pages) && used <= budget
      && forall id | id in pages :: EntriesOk(pages[id].entries) && pages[id].charge == Charge(|pages[id].entries|)
    }

    function Charge(count: nat): nat { count * entryBytes + PAGE_OVERHEAD_BYTES }

    /** What it holds. */
    ghost function Contents(): map<U64, seq<Entry>>
      reads this
    {
      map id | id in pages :: pages[id].entries
    }

    constructor (budget: U32, entryBytes: nat)
      ensures Valid() && Contents() == map[] && recency == [] && this.budget == budget && this.entryBytes == entryBytes
    {
      this.budget, this.entryBytes := budget, entryBytes;
      pages, used, clock, recency := map[], 0, 1, [];
    }

    /** A tick later than any other; the pages and their order are as before. */
    method NextTick() returns (tick: U64)
      requires Valid()
      modifies this`pages, this`clock
      ensures Valid() && tick < clock && Ticking(pages, tick) && SamePages(pages, old(pages))
    {
      if clock == U64_MAX { CompactTicks(); }
      tick := clock;
      clock := clock + 1;
    }

    // Numbers the ticks again from nought, in the order they had.
    method CompactTicks()
      requires Valid()
      modifies this`pages, this`clock
      ensures Valid() && clock < U64_MAX && SamePages(pages, old(pages))
    {
      hide Charges, EntriesOk, Charge, Recent, Ticking, Numbered, SamePages;
      var order := Order();
      Few();
      ghost var was := pages;
      NothingNumbered(order, was);
      for index := 0 to |order|
        invariant Numbered(order, was, pages, index)
      {
        NumberNext(order, was, pages, index);
        pages := pages[order[index] := pages[order[index]].(lastUsed := index)];
      }
      Renumbered(order, was, pages);
      PagesKept(was);
      clock := |pages| + 1;
    }

    // New ticks leave the accounting as it was.
    lemma PagesKept(was: map<U64, Page>)
      requires Recent(recency, was) && used == Charges(recency, was) && used <= budget && SamePages(pages, was)
      requires forall id | id in was :: EntriesOk(was[id].entries) && was[id].charge == Charge(|was[id].entries|)
      requires Recent(recency, pages)
      ensures used == Charges(recency, pages)
      ensures forall id | id in pages :: EntriesOk(pages[id].entries) && pages[id].charge == Charge(|pages[id].entries|)
      ensures |pages| == |recency|
    {
      hide EntriesOk, Charge;
      SameCharges(recency, was, pages);
      KeysAre(recency, pages);
    }

    // The pages in the order of their ticks.
    method Order() returns (order: seq<U64>)
      requires Valid()
      ensures order == recency && |pages| == |recency|
    {
      hide Charges, EntriesOk, Charge, Recent, Ticking, Ids, Oldest;
      order := [];
      var todo := pages.Keys;
      KeysAre(recency, pages);
      while todo != {}
        invariant |order| <= |recency| && order == recency[..|order|] && todo == Ids(recency[|order|..])
        decreases |todo|
      {
        OldestFirst(recency, pages, |order|, todo);
        var id :| id in todo && Oldest(id, todo, pages);
        OneOldest(id, recency[|order|], todo, pages);
        todo := todo - {id};
        Sequences.Around(recency, |order|);
        order := order + [id];
      }
      NoneLeft(recency, |order|);
    }

    /** Looks a page up, which makes it the most recently used one. */
    method Get(id: U64) returns (r: Option<seq<Entry>>)
      requires Valid()
      modifies this
      ensures Valid() && Contents() == old(Contents()) && used == old(used)
      ensures r == if id in old(Contents()) then Some(old(Contents())[id]) else None
      ensures recency == if id in old(Contents()) then Touched(old(recency), id) else old(recency)
    {
      hide Charges, EntriesOk, Charge, Recent, Ticking, Without;
      var tick := NextTick();
      if id !in pages { return None; }
      TouchKeeps(recency, pages, id, tick);
      TicksPast(pages, id, tick, clock);
      var page := pages[id];
      pages := pages[id := page.(lastUsed := tick)];
      recency := Touched(recency, id);
      return Some(page.entries);
    }

    /** The entries of one table, found between two binary searches. */
    method TableSections(id: U64, table: nat) returns (r: Option<seq<Entry>>)
      requires Valid()
      modifies this
      ensures Valid() && Contents() == old(Contents())
      ensures r == if id in old(Contents()) then Some(OfTable(old(Contents())[id], table)) else None
      ensures recency == if id in old(Contents()) then Touched(old(recency), id) else old(recency)
    {
      hide Charges, Charge, Recent, Ticking, Without, OfTable;
      var entries := Get(id);
      if entries.None? { return None; }
      assert id in Contents() && Contents()[id] == pages[id].entries;
      var first := Partition(entries.value, table);
      var last := Partition(entries.value, table + 1);
      SliceIsTable(entries.value, first, last, table);
      return Some(entries.value[first..last]);
    }

    // Drops the least recently used page.
    method EvictOldest() returns (r: Result<()>)
      requires Valid()
      modifies this`pages, this`used, this`recency
      ensures r.Ok? <==> old(recency) != []
      ensures r.Ok? ==> Valid() && recency == old(recency)[1..] && pages == old(pages) - {old(recency)[0]}
      ensures r.Ok? ==> used == Charges(recency, old(pages))
      ensures r.Err? ==> unchanged(this)
    {
      hide Charges, EntriesOk, Charge, Ticking, Recent, Ids, Oldest;
      KeysAre(recency, pages);
      if |pages| == 0 { return Err(Corruption); }
      OldestIsFirst(recency, pages);
      var id :| id in pages && Oldest(id, pages.Keys, pages);
      EvictKeeps(recency, pages);
      TicksStay(pages, id, clock);
      used := used - pages[id].charge;
      pages := pages - {id};
      recency := recency[1..];
      return Ok(());
    }

    // Drops the least recently used pages until there is room.
    method MakeRoom(charge: nat) returns (r: Result<()>)
      requires Valid() && charge <= budget
      modifies this`pages, this`used, this`recency
      ensures r.Ok? && Valid() && used + charge <= budget
      ensures recency == Kept(old(recency), old(pages), budget - charge)
      ensures forall o :: o in pages <==> o in recency
      ensures forall o | o in pages :: o in old(pages) && pages[o] == old(pages)[o]
    {
      hide Charges, EntriesOk, Charge, Ticking, Kept;
      while used + charge > budget
        invariant Valid() && used == Charges(recency, pages)
        invariant forall o | o in pages :: o in old(pages) && pages[o] == old(pages)[o]
        invariant Kept(recency, old(pages), budget - charge) == Kept(old(recency), old(pages), budget - charge)
        decreases |recency|
      {
        SameCharges(recency, pages, old(pages));
        KeptNext(recency, old(pages), budget - charge);
        var evicted := EvictOldest();
        if evicted.Err? { return evicted; }
      }
      SameCharges(recency, pages, old(pages));
      KeptNext(recency, old(pages), budget - charge);
      return Ok(());
    }

    /**
     Caches the directory of a unit. One that is there already must be the same. One that does
     not fit the budget at all is left out; for any other, the least recently used pages make room.
     */
    method Insert(id: U64, entries: seq<Entry>) returns (r: Result<bool>)
      requires Valid()
      modifies this
      ensures Valid()
      ensures r.Err? <==> !EntriesOk(entries) || (id in old(Contents()) && old(Contents())[id] != entries)
      ensures r == Ok(false) <==> EntriesOk(entries) && id !in old(Contents()) && Charge(|entries|) > budget
      ensures r.Err? || r == Ok(false) ==> unchanged(this)
      ensures r == Ok(true) && id in old(Contents()) ==>
        Contents() == old(Contents()) && recency == Touched(old(recency), id)
      ensures r == Ok(true) && id !in old(Contents()) ==>
        && recency == Kept(old(recency), old(pages), budget - Charge(|entries|)) + [id]
        && Contents() == (map o | o in old(Contents()) && o in recency :: old(Contents())[o])[id := entries]
    {
      hide Charges, EntriesOk, Charge, Ticking, Recent, Kept, Without;
      var valid := ValidateEntries(entries);
      if !valid { return Err(Corruption); }
      if id in pages {
        if pages[id].entries != entries { return Err(Corruption); }
        var _ := Get(id);
        return Ok(true);
      }
      var charge := Charge(|entries|);
      if charge > budget { return Ok(false); }
      r := AddPage(id, entries, charge);
    }

    // Adds a page that is not there, in the room that the oldest ones leave.
    method AddPage(id: U64, entries: seq<Entry>, charge: nat) returns (r: Result<bool>)
      requires Valid() && EntriesOk(entries) && charge == Charge(|entries|) <= budget && id !in pages
      modifies this
      ensures r == Ok(true) && Valid() && recency == Kept(old(recency), old(pages), budget - charge) + [id]
      ensures Contents() == (map o | o in old(Contents()) && o in recency :: old(Contents())[o])[id := entries]
    {
      hide Charges, EntriesOk, Charge, Ticking, Kept, Without, Recent;
      var room := MakeRoom(charge);
      if room.Err? { return Err(Corruption); }
      ghost var kept := pages;
      var tick := NextTick();
      AddKeeps(recency, pages, id, Page(entries, charge, tick));
      TicksAdd(pages, id, Page(entries, charge, tick), clock);
      SameCharges(recency, pages, kept);
      used := used + charge;
      pages := pages[id := Page(entries, charge, tick)];
      recency := recency + [id];
      return Ok(true);
    }

    /** What is used is what the cached entries take, and 128 bytes a page. */
    lemma UsedIs()
      requires Valid()
      ensures used == entryBytes * Listed(recency, pages) + 128 * |pages|
    {
      hide EntriesOk, Ticking, TicksRise, Distinct, Listed, Charges;
      KeysAre(recency, pages);
      ChargesAre(recency, pages, entryBytes);
    }

    // The pages are so few that renumbering leaves room.
    lemma Few()
      requires Valid()
      ensures |recency| < 0x1_0000_0000
    {
      ManyPages(recency, pages);
    }
  }

  lemma TicksPast(pages: map<U64, Page>, id: U64, tick: U64, clock: U64)
    requires Ticking(pages, tick) && tick < clock && id in pages
    ensures Ticking(pages[id := pages[id].(lastUsed := tick)], clock) && Ticking(pages, clock)
  {
  }

  // How many entries these pages hold.
  function Listed(ids: seq<U64>, pages: map<U64, Page>): nat
    requires forall id | id in ids :: id in pages
  {
    if ids == [] then 0 else |pages[ids[0]].entries| + Listed(ids[1..], pages)
  }

  lemma {:induction false} ChargesAre(ids: seq<U64>, pages: map<U64, Page>, entryBytes: nat)
    requires forall id | id in ids ::
      id in pages && pages[id].charge == |pages[id].entries| * entryBytes + PAGE_OVERHEAD_BYTES
    ensures Charges(ids, pages) == entryBytes * Listed(ids, pages) + 128 * |ids|
  {
    if ids != [] {
      ChargesAre(ids[1..], pages, entryBytes);
      Spread(entryBytes, |pages[ids[0]].entries|, Listed(ids[1..], pages));
    }
  }

  lemma Spread(n: nat, a: nat, b: nat)
    ensures n * (a + b) == a * n + n * b
  {
  }

  lemma TicksAdd(pages: map<U64, Page>, id: U64, page: Page, clock: U64)
    requires Ticking(pages, page.lastUsed) && page.lastUsed < clock
    ensures Ticking(pages[id := page], clock)
  {
  }

  lemma TicksStay(pages: map<U64, Page>, id: U64, clock: U64)
    requires Ticking(pages, clock)
    ensures Ticking(pages - {id}, clock)
  {
  }

  lemma EvictKeeps(recency: seq<U64>, pages: map<U64, Page>)
    requires Recent(recency, pages) && recency != []
    ensures recency[0] in pages && Recent(recency[1..], pages - {recency[0]})
    ensures (forall id | id in recency[1..] :: id in pages)
    ensures Charges(recency[1..], pages - {recency[0]}) == Charges(recency[1..], pages)
    ensures Charges(recency, pages) == pages[recency[0]].charge + Charges(recency[1..], pages)
  {
    hide Charges, Recent;
    RestRecent(recency, pages);
    ChargesFirst(recency, pages);
    SameCharges(recency[1..], pages - {recency[0]}, pages);
  }

  lemma RestRecent(recency: seq<U64>, pages: map<U64, Page>)
    requires Recent(recency, pages) && recency != []
    ensures recency[0] in pages && Recent(recency[1..], pages - {recency[0]})
    ensures forall id | id in recency :: id in pages
    ensures forall id | id in recency[1..] :: id in pages && id in pages - {recency[0]}
  {
    hide Distinct, TicksRise;
    RestDistinct(recency);
    assert recency == [recency[0]] + recency[1..];
    RestRises(recency, pages, pages - {recency[0]});
  }

  lemma RestDistinct(ids: seq<U64>)
    requires Distinct(ids) && ids != []
    ensures Distinct(ids[1..]) && ids[0] !in ids[1..]
  {
    var rest := ids[1..];
    assert forall i | 0 <= i < |rest| :: rest[i] == ids[i + 1];
  }

  lemma RestRises(ids: seq<U64>, pages: map<U64, Page>, after: map<U64, Page>)
    requires ids != [] && (forall id | id in ids :: id in pages) && TicksRise(ids, pages)
    requires forall id | id in ids[1..] :: id in after && id in pages && after[id] == pages[id]
    ensures TicksRise(ids[1..], after)
  {
    var rest := ids[1..];
    forall i, j | 0 <= i < j < |rest| ensures after[rest[i]].lastUsed < after[rest[j]].lastUsed {
      assert rest[i] == ids[i + 1] && rest[j] == ids[j + 1] && rest[i] in rest && rest[j] in rest;
    }
  }

  lemma ChargesFirst(ids: seq<U64>, pages: map<U64, Page>)
    requires ids != [] && forall id | id in ids :: id in pages
    ensures Charges(ids, pages) == pages[ids[0]].charge + Charges(ids[1..], pages)
  {
  }

  lemma KeptNext(ids: seq<U64>, pages: map<U64, Page>, room: nat)
    requires forall id | id in ids :: id in pages
    ensures Kept(ids, pages, room) ==
            if Charges(ids, pages) <= room then ids else Kept(ids[1..], pages, room)
    ensures Charges(ids, pages) > room ==> ids != []
  {
  }

  lemma AddKeeps(recency: seq<U64>, pages: map<U64, Page>, id: U64, page: Page)
    requires Recent(recency, pages) && Ticking(pages, page.lastUsed) && id !in pages
    ensures Recent(recency + [id], pages[id := page])
    ensures Charges(recency + [id], pages[id := page]) == Charges(recency, pages) + page.charge
  {
    hide Charges;
    var after := pages[id := page];
    LastRises(recency, pages, after, id);
    ChargesJoin(recency, [id], after);
    SameCharges(recency, after, pages);
    ChargesOne(id, after);
  }

  // Whether a directory is ordered and not too long.
  method ValidateEntries(entries: seq<Entry>) returns (valid: bool)
    ensures valid <==> EntriesOk(entries)
  {
    if entries == [] || |entries| > MAX_UNIT_SECTIONS { return false; }
    for i := 1 to |entries|
      invariant forall a, b | 0 <= a < b < i :: Before(entries[a], entries[b])
    {
      var a, b := entries[i - 1], entries[i];
      if a.table > b.table || (a.table == b.table && a.minTs >= b.minTs) { return false; }
    }
    return true;
  }

  function Ids(ids: seq<U64>): (all: set<U64>)
    ensures forall id :: id in all <==> id in ids
  {
    if ids == [] then {} else {ids[0]} + Ids(ids[1..])
  }

  lemma {:induction false} DistinctSize(ids: seq<U64>)
    requires Distinct(ids)
    ensures |Ids(ids)| == |ids|
    decreases |ids|
  {
    if ids != [] {
      DistinctSize(ids[1..]);
      forall i | 0 <= i < |ids[1..]| ensures ids[1..][i] != ids[0] { assert ids[1..][i] == ids[i + 1]; }
      assert ids[0] !in Ids(ids[1..]);
    }
  }

  lemma KeysAre(recency: seq<U64>, pages: map<U64, Page>)
    requires Recent(recency, pages)
    ensures pages.Keys == Ids(recency[0..]) && |pages| == |recency|
  {
    assert recency[0..] == recency;
    DistinctSize(recency);
    assert pages.Keys == Ids(recency);
  }

  predicate Oldest(id: U64, todo: set<U64>, pages: map<U64, Page>)
    requires id in pages && todo <= pages.Keys
  {
    forall o | o in todo :: o == id || pages[id].lastUsed < pages[o].lastUsed
  }

  lemma OneOldest(a: U64, b: U64, todo: set<U64>, pages: map<U64, Page>)
    requires a in todo && b in todo && todo <= pages.Keys && Oldest(a, todo, pages) && Oldest(b, todo, pages)
    ensures a == b
  {
  }

  lemma NoneLeft(recency: seq<U64>, n: nat)
    requires n <= |recency| && Ids(recency[n..]) == {}
    ensures recency[..n] == recency
  {
    NoIds(recency[n..]);
    Sequences.Cut(recency, n);
  }

  lemma NoIds(ids: seq<U64>)
    ensures Ids(ids) == {} ==> ids == []
  {
  }

  // The next page of the list is the oldest of those left.
  lemma OldestFirst(recency: seq<U64>, pages: map<U64, Page>, n: nat, todo: set<U64>)
    requires Recent(recency, pages) && n <= |recency| && todo == Ids(recency[n..]) && todo != {}
    ensures n < |recency| && recency[n] in todo
    ensures todo <= pages.Keys && Oldest(recency[n], todo, pages)
    ensures todo - {recency[n]} == Ids(recency[n + 1..])
  {
    var rest := recency[n..];
    assert rest != [];
    RestIds(recency, n);
    hide Ids;
    forall o | o in todo ensures o in pages && (o == recency[n] || pages[recency[n]].lastUsed < pages[o].lastUsed) {
      var j :| 0 <= j < |rest| && rest[j] == o;
      assert recency[n + j] == o;
    }
  }

  lemma RestIds(recency: seq<U64>, n: nat)
    requires Distinct(recency) && n < |recency|
    ensures recency[n] in Ids(recency[n..]) && Ids(recency[n..]) - {recency[n]} == Ids(recency[n + 1..])
    ensures forall o :: o in Ids(recency[n..]) <==> o in recency[n..]
  {
    assert recency[n..] == [recency[n]] + recency[n + 1..];
    assert recency[n] !in recency[n + 1..];
  }

  lemma OldestIsFirst(recency: seq<U64>, pages: map<U64, Page>)
    requires Recent(recency, pages) && |pages| > 0
    ensures recency != [] && recency[0] in pages && Oldest(recency[0], pages.Keys, pages)
    ensures forall id | id in pages && Oldest(id, pages.Keys, pages) :: id == recency[0]
  {
    hide Recent, Ids, Oldest;
    KeysAre(recency, pages);
    Sequences.Neutral(recency);
    OldestFirst(recency, pages, 0, pages.Keys);
    forall id | id in pages && Oldest(id, pages.Keys, pages) ensures id == recency[0] {
      OneOldest(id, recency[0], pages.Keys, pages);
    }
  }

  // The first pages of the list have their new ticks.
  ghost predicate Numbered(order: seq<U64>, was: map<U64, Page>, pages: map<U64, Page>, n: nat)
    requires n <= |order|
  {
    Recent(order, was) && SamePages(pages, was) && (forall id :: id in order ==> id in pages)
    && forall a | 0 <= a < n :: pages[order[a]].lastUsed == a
  }

  lemma NothingNumbered(order: seq<U64>, was: map<U64, Page>)
    requires Recent(order, was)
    ensures Numbered(order, was, was, 0)
  {
  }

  lemma NumberNext(order: seq<U64>, was: map<U64, Page>, pages: map<U64, Page>, n: nat)
    requires n < |order| && Numbered(order, was, pages, n) && n <= U64_MAX
    ensures order[n] in pages && Numbered(order, was, pages[order[n] := pages[order[n]].(lastUsed := n)], n + 1)
  {
    assert order[n] in order;
    forall a | 0 <= a < n ensures order[a] != order[n] { }
  }

  lemma Renumbered(order: seq<U64>, was: map<U64, Page>, pages: map<U64, Page>)
    requires Numbered(order, was, pages, |order|)
    requires |order| < U64_MAX
    ensures Recent(order, pages) && Ticking(pages, |order| + 1) && SamePages(pages, was)
  {
  }
}
