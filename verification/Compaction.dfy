/**
 Compaction of one table: its rows are written again into fewer sections. Every row keeps its
 version and every fact its type, and the new sections are as orderly as the old ones.
 */
module Compaction {
  import opened Prelude
  import opened Cells
  import opened Catalog
  import opened Lookups
  import opened Ranges
  import opened SectionBuffers
  import Sequences

  // ---------------------------------------------------------------------- rows

  function AllRows(ss: seq<Section>): seq<I64> {
    if ss == [] then [] else AllRows(ss[..|ss| - 1]) + Last(ss).timestamps
  }

  lemma AllRowsSnoc(ss: seq<Section>, s: Section)
    ensures AllRows(ss + [s]) == AllRows(ss) + s.timestamps
  {
    Sequences.Unsnoc(ss, s);
  }

  function Copies(version: nat, n: nat): seq<nat> { seq(n, _ => version) }

  lemma CopiesNext(version: nat, n: nat)
    ensures Copies(version, n + 1) == Copies(version, n) + [version] && Copies(version, 0) == []
  {
  }

  /** The version of every row, row by row. */
  function AllVersions(ss: seq<Section>): seq<nat> {
    if ss == [] then [] else AllVersions(ss[..|ss| - 1]) + Copies(Last(ss).version, |Last(ss).timestamps|)
  }

  lemma AllVersionsSnoc(ss: seq<Section>, s: Section)
    ensures AllVersions(ss + [s]) == AllVersions(ss) + Copies(s.version, |s.timestamps|)
  {
    Sequences.Unsnoc(ss, s);
  }

  /** The facts of a key, each with its type and its version. */
  function SealedTags(ss: seq<Section>, k: Key): seq<Tagged>
    requires SectionsOk(ss)
  {
    if ss == [] then [] else SealedTags(ss[..|ss| - 1], k) + SectionTags(Last(ss), k)
  }

  lemma SealedTagsSnoc(ss: seq<Section>, s: Section, k: Key)
    requires SectionsOk(ss) && SectionOk(s)
    ensures SectionsOk(ss + [s]) && SealedTags(ss + [s], k) == SealedTags(ss, k) + SectionTags(s, k)
  {
    hide SectionOk, SectionTags;
    Sequences.Unsnoc(ss, s);
    assert SectionsOk(ss + [s]);
  }

  // -------------------------------------------------------------- the bookkeeping

  // What is buffered: rows, columns and the version of all of them.
  datatype Pending = Pending(rows: seq<I64>, held: map<Stream, Buffered>, version: nat) {
    predicate Even() { Level(held, |rows|) }

    function Of(k: Key): seq<Tagged>
      requires Even()
    {
      Held(rows, held, version, (k.series, k.field))
    }
  }

  function NonePending(version: nat): Pending { Pending([], map[], version) }

  // How far the reading has come in a section.
  datatype Reading = Between | Inside(s: Section, r: nat) {
    predicate Fine() { Inside? ==> SectionOk(s) && r <= |s.timestamps| }

    function Tags(k: Key): seq<Tagged>
      requires Fine()
    {
      if Inside? then UpTo(s, k, r) else []
    }

    function Rows(): seq<I64>
      requires Fine()
    {
      if Inside? then s.timestamps[..r] else []
    }

    function Versions(): seq<nat>
      requires Fine()
    {
      if Inside? then Copies(s.version, r) else []
    }
  }

  // What has been written and what is still buffered, against what has been read.
  ghost predicate Merged(output: seq<Section>, p: Pending, table: nat, seen: seq<Section>, at: Reading)
    requires SectionsOk(output) && SectionsOk(seen) && p.Even() && at.Fine()
  {
    && (forall k: Key | k.table == table :: SealedTags(output, k) + p.Of(k) == SealedTags(seen, k) + at.Tags(k))
    && AllRows(output) + p.rows == AllRows(seen) + at.Rows()
    && AllVersions(output) + Copies(p.version, |p.rows|) == AllVersions(seen) + at.Versions()
    && Chain(output) && (output != [] && p.rows != [] ==> Last(output).maxTs < p.rows[0])
    && (forall i | 0 <= i < |output| :: output[i].table == table && Used(output[i]))
  }

  // Flushing writes what is buffered.
  lemma MergedFlush(output: seq<Section>, p: Pending, table: nat, seen: seq<Section>, at: Reading, written: Section,
                    version: nat)
    requires SectionsOk(output) && SectionsOk(seen) && p.Even() && p.rows != [] && at.Fine()
    requires Merged(output, p, table, seen, at)
    requires SectionOk(written) && written.table == table && written.timestamps == p.rows
    requires written.version == p.version && Used(written)
    requires forall k: Key :: SectionTags(written, k) == p.Of(k)
    ensures SectionsOk(output + [written]) && Merged(output + [written], NonePending(version), table, seen, at)
  {
    hide SectionOk, SectionTags, UpTo, SealedTags, Held, AllRows, AllVersions, Chain, Copies, Used;
    FlushedOrder(output, p.rows, written);
    AllRowsSnoc(output, written);
    AllVersionsSnoc(output, written);
    CopiesNext(version, 0);
    Sequences.Neutral(AllRows(output) + p.rows);
    Sequences.Neutral(AllVersions(output) + Copies(p.version, |p.rows|));
    forall k: Key | k.table == table
      ensures SealedTags(output + [written], k) + NonePending(version).Of(k) == SealedTags(seen, k) + at.Tags(k)
    {
      SealedTagsSnoc(output, written, k);
      HeldNothing(version, (k.series, k.field));
      Sequences.Neutral(SealedTags(output, k) + SectionTags(written, k));
    }
  }

  lemma FlushedOrder(output: seq<Section>, buffered: seq<I64>, written: Section)
    requires SectionsOk(output) && SectionOk(written) && written.timestamps == buffered && Chain(output)
    requires output != [] && buffered != [] ==> Last(output).maxTs < buffered[0]
    ensures SectionsOk(output + [written]) && Chain(output + [written])
  {
    assert SectionsOk(output + [written]);
    if output != [] {
      assert SectionOk(Last(output)) && written.minTs == buffered[0];
      SectionOrder(Last(output));
    }
    ChainSnoc(output, written);
  }

  lemma HeldNothing(version: nat, s: Stream)
    ensures Held([], map[], version, s) == []
  {
  }

  // An empty buffer may be of any version.
  lemma MergedAnew(output: seq<Section>, table: nat, seen: seq<Section>, at: Reading, a: nat, b: nat)
    requires SectionsOk(output) && SectionsOk(seen) && at.Fine() && Merged(output, NonePending(a), table, seen, at)
    ensures Merged(output, NonePending(b), table, seen, at)
  {
    hide SectionOk, UpTo, SealedTags, AllRows, AllVersions, Chain, Copies, Used;
    CopiesNext(a, 0);
    CopiesNext(b, 0);
    forall k: Key ensures NonePending(a).Of(k) == NonePending(b).Of(k) { HeldNothing(a, (k.series, k.field)); }
  }

  // A row moves from the input to the buffer.
  lemma MergedRow(output: seq<Section>, p: Pending, after: map<Stream, Buffered>, table: nat, seen: seq<Section>,
                  s: Section, r: nat)
    requires SectionsOk(output) && SectionsOk(seen) && p.Even() && SectionOk(s) && r < |s.timestamps|
    requires Merged(output, p, table, seen, Inside(s, r)) && Level(after, |p.rows| + 1) && p.version == s.version
    requires p.rows == [] && output != [] ==> Last(output).maxTs < s.timestamps[r]
    requires forall k: Key | k.table == table ::
      Held(p.rows + [s.timestamps[r]], after, p.version, (k.series, k.field)) ==
      p.Of(k) + RowTags(s.columns, |s.timestamps|, (k.series, k.field), r, s.timestamps[r], p.version)
    ensures Merged(output, Pending(p.rows + [s.timestamps[r]], after, p.version), table, seen, Inside(s, r + 1))
  {
    hide UpTo, SealedTags, Held, RowTags, AllRows, AllVersions, Copies, Used;
    var ts := s.timestamps[r];
    Sequences.Around(s.timestamps, r);
    Sequences.Associative(AllRows(output), p.rows, [ts]);
    Sequences.Associative(AllRows(seen), s.timestamps[..r], [ts]);
    CopiesNext(p.version, |p.rows|);
    CopiesNext(s.version, r);
    Sequences.Associative(AllVersions(output), Copies(p.version, |p.rows|), [s.version]);
    Sequences.Associative(AllVersions(seen), Copies(s.version, r), [s.version]);
    forall k: Key | k.table == table
      ensures SealedTags(output, k) + Held(p.rows + [ts], after, p.version, (k.series, k.field)) ==
          SealedTags(seen, k) + UpTo(s, k, r + 1)
    {
      var more := RowTags(s.columns, |s.timestamps|, (k.series, k.field), r, ts, s.version);
      UpToNext(s, k, r);
      Sequences.Associative(SealedTags(output, k), p.Of(k), more);
      Sequences.Associative(SealedTags(seen, k), UpTo(s, k, r), more);
    }
  }

  // A section is begun, and one is done.
  lemma MergedSection(output: seq<Section>, p: Pending, table: nat, seen: seq<Section>, s: Section)
    requires SectionsOk(output) && SectionsOk(seen) && p.Even() && SectionOk(s) && SectionsOk(seen + [s])
    ensures Merged(output, p, table, seen, Between) ==> Merged(output, p, table, seen, Inside(s, 0))
    ensures Merged(output, p, table, seen, Inside(s, |s.timestamps|)) ==>
      Merged(output, p, table, seen + [s], Between)
  {
    hide SectionOk, UpTo, SealedTags, Held, SectionTags, AllVersions, Copies, Used, AllRows;
    AllRowsSnoc(seen, s);
    AllVersionsSnoc(seen, s);
    CopiesNext(s.version, 0);
    Sequences.Neutral(s.timestamps);
    Sequences.Neutral(AllRows(seen));
    Sequences.Neutral(AllRows(seen) + s.timestamps);
    Sequences.Neutral(AllVersions(seen));
    Sequences.Neutral(AllVersions(seen) + Copies(s.version, |s.timestamps|));
    forall k: Key
      ensures UpTo(s, k, 0) == [] && UpTo(s, k, |s.timestamps|) == SectionTags(s, k)
      ensures SealedTags(seen + [s], k) + [] == SealedTags(seen, k) + SectionTags(s, k)
      ensures SealedTags(seen, k) + [] == SealedTags(seen, k)
    {
      UpToEnds(s, k);
      SealedTagsSnoc(seen, s, k);
      Sequences.Neutral(SealedTags(seen + [s], k));
      Sequences.Neutral(SealedTags(seen, k));
    }
  }

  // What a buffer holds, or nothing when there is none.
  ghost function PendingOf(b: SectionBuffer?): Pending
    reads b
  {
    if b == null then NonePending(0) else Pending(b.timestamps, b.columns, b.version)
  }

  // A buffer in use has a row.
  ghost predicate InUse(b: SectionBuffer?, table: nat, limits: Limits)
    reads b
  {
    b != null ==> b.Valid() && b.timestamps != [] && b.table == table && b.limits == limits
  }

  // The state of a merge, with nothing in it that the limits have no room for.
  ghost predicate State(b: SectionBuffer?, output: seq<Section>, table: nat, limits: Limits, seen: seq<Section>,
                        at: Reading)
    reads b
  {
    && InUse(b, table, limits) && SectionsOk(output) && SectionsOk(seen) && PendingOf(b).Even() && at.Fine()
    && AllWithin(limits, output) && Merged(output, PendingOf(b), table, seen, at)
    && Packed(limits, output) && Joined(b, output, limits)
  }

  /** The limits have no room for a row of these streams behind the rows of a section. */
  ghost predicate Full(limits: Limits, s: Section, row: set<Stream>)
    requires SectionOk(s)
  {
    !Takes(limits, |s.timestamps|, StreamsOf(s.columns), |CellsIn(s.columns, |s.timestamps|)|, row)
  }

  /** No section could have taken the first row of the next one, when that is of its table and version. */
  ghost predicate Packed(limits: Limits, ss: seq<Section>)
    requires SectionsOk(ss)
  {
    forall i | 0 < i < |ss| :: PackedAt(limits, ss, i)
  }

  ghost predicate PackedAt(limits: Limits, ss: seq<Section>, i: nat)
    requires SectionsOk(ss) && 0 < i < |ss|
  {
    (ss[i - 1].table, ss[i - 1].version) == (ss[i].table, ss[i].version) ==>
      Full(limits, ss[i - 1], RowStreams(ss[i].columns, |ss[i].timestamps|, 0))
  }

  // The buffered rows were begun because the last section was full, or of another version.
  ghost predicate Joined(b: SectionBuffer?, output: seq<Section>, limits: Limits)
    requires SectionsOk(output)
    reads b
  {
    b != null && b.Valid() && b.timestamps != [] && output != [] && Last(output).version == b.version ==>
      Full(limits, Last(output), HeldStreams(b.columns, |b.timestamps|, 0))
  }

  // A row may be put into the buffer: it has rows already, or the last section is of another version, or full.
  ghost predicate Awaits(b: SectionBuffer, output: seq<Section>, limits: Limits, s: Section, row: nat)
    requires SectionsOk(output) && SectionOk(s) && row < |s.timestamps|
    reads b
  {
    && Packed(limits, output) && Joined(b, output, limits)
    && (b.timestamps == [] && output != [] && Last(output).version == b.version ==>
          Full(limits, Last(output), RowStreams(s.columns, |s.timestamps|, row)))
  }

  // Nothing is buffered at the start, or where the version changes.
  predicate Fresh(output: seq<Section>, version: nat) { output != [] ==> Last(output).version != version }

  lemma PackedMore(limits: Limits, output: seq<Section>, s: Section)
    requires SectionsOk(output) && SectionOk(s) && Packed(limits, output)
    requires output != [] && Last(output).version == s.version ==>
      Full(limits, Last(output), RowStreams(s.columns, |s.timestamps|, 0))
    ensures SectionsOk(output + [s]) && Packed(limits, output + [s])
  {
    hide SectionOk, Full, RowStreams;
    var all := output + [s];
    assert SectionsOk(all);
    forall i | 0 < i < |all| ensures PackedAt(limits, all, i) {
      if i < |output| { assert PackedAt(limits, output, i); }
    }
  }

  /** Sections that the limits had room for. */
  ghost predicate AllWithin(limits: Limits, output: seq<Section>)
    requires SectionsOk(output)
  {
    forall i | 0 <= i < |output| :: Within(limits, output[i])
  }

  predicate AllRowsBelow(ss: seq<Section>, ts: int) { forall x | x in AllRows(ss) :: x < ts }

  // The last row written is a row that was read.
  lemma {:induction false} LastRow(output: seq<Section>)
    requires SectionsOk(output) && output != []
    ensures Last(output).maxTs in AllRows(output)
  {
    assert Last(Last(output).timestamps) == Last(output).maxTs;
  }

  lemma RowsBelow(output: seq<Section>, buffered: seq<I64>, seen: seq<Section>, s: Section, r: nat)
    requires SectionsOk(output) && SectionOk(s) && r < |s.timestamps| && AllRowsBelow(seen, s.minTs)
    requires AllRows(output) + buffered == AllRows(seen) + s.timestamps[..r]
    ensures output != [] ==> Last(output).maxTs < s.timestamps[r]
    ensures forall x | x in buffered :: x < s.timestamps[r]
  {
    hide AllRows;
    forall x | x in AllRows(output) + buffered ensures x < s.timestamps[r] {
      assert x in AllRows(seen) || x in s.timestamps[..r];
    }
    if output != [] {
      LastRow(output);
      assert Last(output).maxTs in AllRows(output) + buffered;
    }
    forall x | x in buffered ensures x < s.timestamps[r] { assert x in AllRows(output) + buffered; }
  }

  // ------------------------------------------------------------- what may be merged

  /** Within one version a stream has one type. */
  predicate OneType(ss: seq<Section>) {
    forall i, j | 0 <= i < |ss| && 0 <= j < |ss| && ss[i].version == ss[j].version ::
      forall x, y | x in ss[i].columns && y in ss[j].columns && StreamOf(x) == StreamOf(y) :: x.kind == y.kind
  }

  /** The limits can measure any section and have room for each single row. */
  ghost predicate Roomy(limits: Limits, ss: seq<Section>)
    requires SectionsOk(ss)
  {
    && (forall rows, streams, facts :: limits.measure(rows, streams, facts).Some?)
    && forall i, r | 0 <= i < |ss| && 0 <= r < |ss[i].timestamps| :: RowFits(limits, ss[i], r)
  }

  ghost predicate RowFits(limits: Limits, s: Section, r: nat)
    requires SectionOk(s) && r < |s.timestamps|
  {
    limits.Fits(1, Opening(s.columns, |s.timestamps|, r, {}), Present(s.columns, |s.timestamps|, r))
  }

  // Some section of a version has a column of a stream under a type.
  predicate TypedIn(ss: seq<Section>, version: nat, stream: Stream, kind: ValueType) {
    exists i :: 0 <= i < |ss| && ss[i].version == version && HasColumn(ss[i].columns, stream, kind)
  }

  predicate HasColumn(columns: seq<Column>, stream: Stream, kind: ValueType) {
    exists c :: c in columns && StreamOf(c) == stream && c.kind == kind
  }

  lemma {:induction false} ColumnIn(columns: seq<Column>, series: nat, field: nat)
    requires ColumnOf(columns, series, field).Some?
    ensures var c := ColumnOf(columns, series, field).value; c in columns && StreamOf(c) == (series, field)
    decreases |columns|
  {
    var c := Last(columns);
    if !(c.series == series && c.field == field) {
      ColumnIn(columns[..|columns| - 1], series, field);
    }
  }

  lemma SectionTyped(s: Section, k: Key, tag: Tagged)
    requires SectionOk(s)
    ensures tag in SectionTags(s, k) ==> tag.version == s.version && HasColumn(s.columns, (k.series, k.field), tag.kind)
    ensures forall r: nat | r <= |s.timestamps| && tag in UpTo(s, k, r) ::
      tag.version == s.version && HasColumn(s.columns, (k.series, k.field), tag.kind)
  {
    hide Picked;
    if ColumnOf(s.columns, k.series, k.field).Some? { ColumnIn(s.columns, k.series, k.field); }
  }

  /** Every tagged fact comes from a column of its type in a section of its version. */
  lemma {:induction false} TagOrigin(ss: seq<Section>, k: Key, tag: Tagged)
    requires SectionsOk(ss) && tag in SealedTags(ss, k)
    ensures TypedIn(ss, tag.version, (k.series, k.field), tag.kind)
    decreases |ss|
  {
    hide SectionOk, SectionTags, HasColumn;
    if ss != [] {
      var n := |ss| - 1;
      SectionTyped(ss[n], k, tag);
      if tag in SealedTags(ss[..n], k) {
        TagOrigin(ss[..n], k, tag);
        var i :| 0 <= i < n && ss[..n][i].version == tag.version
                 && HasColumn(ss[..n][i].columns, (k.series, k.field), tag.kind);
        assert ss[i] == ss[..n][i];
      }
    }
  }

  // What is buffered is of types that were read.
  lemma BufferedTyped(output: seq<Section>, p: Pending, table: nat, seen: seq<Section>, s: Section, r: nat,
                      stream: Stream)
    requires SectionsOk(output) && SectionsOk(seen) && p.Even() && SectionOk(s) && r <= |s.timestamps|
    requires Merged(output, p, table, seen, Inside(s, r)) && Inhabited(p.rows, p.held) && stream in p.held
    ensures TypedIn(seen + [s], p.version, stream, p.held[stream].kind)
  {
    hide SectionOk, UpTo, AllRows, AllVersions, Picked, Tag, Used, SealedTags;
    var k := Key(table, stream.0, stream.1);
    var fs := Picked(p.rows, p.held[stream].cells);
    TagFirst(fs, p.held[stream].kind, p.version);
    var tag := p.Of(k)[0];
    assert tag in SealedTags(output, k) + p.Of(k);
    assert tag in SealedTags(seen, k) || tag in UpTo(s, k, r);
    SectionTyped(s, k, tag);
    assert (seen + [s])[|seen|] == s;
    if tag in SealedTags(seen, k) {
      TagOrigin(seen, k, tag);
      TypedMore(seen, s, p.version, stream, tag.kind);
    }
  }

  lemma TypedMore(seen: seq<Section>, s: Section, version: nat, stream: Stream, kind: ValueType)
    requires TypedIn(seen, version, stream, kind)
    ensures TypedIn(seen + [s], version, stream, kind)
  {
    hide HasColumn;
    var i :| 0 <= i < |seen| && seen[i].version == version && HasColumn(seen[i].columns, stream, kind);
    assert (seen + [s])[i] == seen[i];
  }

  lemma TagFirst(fs: seq<Fact>, kind: ValueType, version: nat)
    requires fs != []
    ensures Tag(fs, kind, version) != [] && Tag(fs, kind, version)[0].kind == kind
    ensures Tag(fs, kind, version)[0].version == version
  {
  }

  // A clash of types was there in the input.
  lemma ClashRead(output: seq<Section>, p: Pending, table: nat, seen: seq<Section>, s: Section, r: nat)
    requires SectionsOk(output) && SectionsOk(seen) && p.Even() && SectionOk(s) && r <= |s.timestamps|
    requires Merged(output, p, table, seen, Inside(s, r)) && Inhabited(p.rows, p.held) && p.version == s.version
    requires Clashes(p.held, s.columns)
    ensures !OneType(seen + [s])
  {
    hide SectionOk, Merged, Inhabited;
    var c :| 0 <= c < |s.columns| && StreamOf(s.columns[c]) in p.held
             && p.held[StreamOf(s.columns[c])].kind != s.columns[c].kind;
    BufferedTyped(output, p, table, seen, s, r, StreamOf(s.columns[c]));
    TwoTypes(seen + [s], |seen|, s.columns[c], p.held[StreamOf(s.columns[c])].kind);
  }

  lemma TwoTypes(ss: seq<Section>, j: nat, y: Column, kind: ValueType)
    requires j < |ss| && y in ss[j].columns && y.kind != kind && TypedIn(ss, ss[j].version, StreamOf(y), kind)
    ensures !OneType(ss)
  {
    var i :| 0 <= i < |ss| && ss[i].version == ss[j].version && HasColumn(ss[i].columns, StreamOf(y), kind);
    var x :| x in ss[i].columns && StreamOf(x) == StreamOf(y) && x.kind == kind;
  }

  // -------------------------------------------------------------------- merging

  // Writes what is buffered, if anything is.
  method FlushBuffer(buffer: SectionBuffer?, output: seq<Section>, table: nat, limits: Limits, ghost seen: seq<Section>,
                     ghost at: Reading) returns (written: seq<Section>)
    requires State(buffer, output, table, limits, seen, at)
    ensures State(null, written, table, limits, seen, at)
    ensures buffer == null ==> written == output
    ensures buffer != null ==> written != [] && Last(written).version == buffer.version
    ensures buffer != null ==> forall row: set<Stream> ::
      Full(limits, Last(written), row) <==> !Takes(limits, |buffer.timestamps|, buffer.columns.Keys, buffer.facts, row)
  {
    hide SectionOk, Merged, SectionTags, Held, Within, Picked, Used, UpTo, Packed, Takes, CellsIn, RowStreams,
         HeldStreams;
    if buffer == null { return output; }
    var section := buffer.Finish();
    PackedMore(limits, output, section);
    MergedFlush(output, PendingOf(buffer), table, seen, at, section, 0);
    WithinMore(limits, output, [section]);
    return output + [section];
  }

  lemma WithinMore(limits: Limits, output: seq<Section>, more: seq<Section>)
    requires SectionsOk(output) && SectionsOk(more) && AllWithin(limits, output) && AllWithin(limits, more)
    ensures SectionsOk(output + more) && AllWithin(limits, output + more)
  {
    hide SectionOk, Within;
    SectionsJoin(output, more);
  }

  // A new buffer for rows of one version.
  method NewBuffer(table: nat, version: nat, limits: Limits, ghost output: seq<Section>, ghost seen: seq<Section>,
                   ghost at: Reading)
    returns (b: SectionBuffer)
    requires State(null, output, table, limits, seen, at)
    ensures fresh(b) && b.Valid() && b.table == table && b.limits == limits && b.version == version
    ensures b.timestamps == [] && b.columns == map[] && b.facts == 0
    ensures PendingOf(b).Even() && Merged(output, PendingOf(b), table, seen, at)
  {
    hide Merged;
    b := new SectionBuffer(table, version, limits);
    MergedAnew(output, table, seen, at, 0, version);
  }

  // A buffer that a row is put into.
  ghost predicate Ready(used: SectionBuffer, output: seq<Section>, table: nat, limits: Limits, seen: seq<Section>,
                        s: Section, row: nat)
    requires SectionOk(s) && row < |s.timestamps|
    reads used
  {
    && used.Valid() && used.table == table && used.limits == limits && used.version == s.version
    && SectionsOk(output) && SectionsOk(seen) && AllWithin(limits, output) && PendingOf(used).Even()
    && Merged(output, PendingOf(used), table, seen, Inside(s, row)) && Awaits(used, output, limits, s, row)
  }

  // Whether the buffer has room for the row, or no section can have it.
  method RoomFor(used: SectionBuffer, s: Section, row: nat) returns (fits: Result<bool>)
    requires SectionOk(s) && row < |s.timestamps|
    ensures fits.Ok? ==>
      (fits.value <==> used.limits.Fits(|used.timestamps| + 1,
                                        |used.columns| + Opening(s.columns, |s.timestamps|, row, used.columns.Keys),
                                        used.facts + Present(s.columns, |s.timestamps|, row)))
    ensures fits.Ok? ==>
      (fits.value <==> Takes(used.limits, |used.timestamps|, used.columns.Keys, used.facts,
                             RowStreams(s.columns, |s.timestamps|, row)))
    ensures fits.Err? ==> SectionsOk([s]) && !Roomy(used.limits, [s])
  {
    hide SectionOk, Roomy, Opening, Present, RowStreams;
    SectionRows(s);
    CountRow(s.columns, |s.timestamps|, row, used.columns.Keys);
    fits := used.CanAccept(s.columns, |s.timestamps|, row);
    if fits.Err? {
      NotMeasured(used.limits, s, |used.timestamps| + 1,
                  |used.columns| + Opening(s.columns, |s.timestamps|, row, used.columns.Keys),
                  used.facts + Present(s.columns, |s.timestamps|, row));
    }
  }

  // A buffer with room for a row: the current one, or a new one when that is full.
  method FitRow(buffer: SectionBuffer?, before: seq<Section>, table: nat, s: Section, row: nat, limits: Limits,
                ghost seen: seq<Section>)
    returns (r: Result<SectionBuffer>, output: seq<Section>)
    requires SectionOk(s) && row < |s.timestamps| && State(buffer, before, table, limits, seen, Inside(s, row))
    requires if buffer == null then Fresh(before, s.version) else buffer.version == s.version
    ensures r.Ok? ==> (r.value == buffer || fresh(r.value)) && Ready(r.value, output, table, limits, seen, s, row)
    ensures r.Ok? ==>
      limits.Fits(|r.value.timestamps| + 1,
                  |r.value.columns| + Opening(s.columns, |s.timestamps|, row, r.value.columns.Keys),
                  r.value.facts + Present(s.columns, |s.timestamps|, row))
    ensures r.Err? ==> SectionsOk([s]) && !Roomy(limits, [s])
  {
    hide SectionOk, Merged, AllWithin, Roomy, Held, Opening, Present, UpTo, Limits.Fits, Inhabited, Packed, Full, Takes,
         RowStreams, HeldStreams;
    output := before;
    SectionRows(s);
    var used: SectionBuffer;
    if buffer == null { used := NewBuffer(table, s.version, limits, output, seen, Inside(s, row)); }
    else { used := buffer; }
    var fits := RoomFor(used, s, row);
    if fits.Err? { return Err(fits.error), output; }
    if fits.value { return Ok(used), output; }
    output := FlushBuffer(buffer, output, table, limits, seen, Inside(s, row));
    r := FitAnew(output, table, s, row, limits, seen);
  }

  // A new buffer, if that has room for a row.
  method FitAnew(output: seq<Section>, table: nat, s: Section, row: nat, limits: Limits, ghost seen: seq<Section>)
    returns (r: Result<SectionBuffer>)
    requires SectionOk(s) && row < |s.timestamps| && State(null, output, table, limits, seen, Inside(s, row))
    requires Fresh(output, s.version)
      || (output != [] && Full(limits, Last(output), RowStreams(s.columns, |s.timestamps|, row)))
    ensures r.Ok? ==> fresh(r.value) && Ready(r.value, output, table, limits, seen, s, row)
    ensures r.Ok? ==>
      limits.Fits(|r.value.timestamps| + 1,
                  |r.value.columns| + Opening(s.columns, |s.timestamps|, row, r.value.columns.Keys),
                  r.value.facts + Present(s.columns, |s.timestamps|, row))
    ensures r.Err? ==> SectionsOk([s]) && !Roomy(limits, [s])
  {
    hide SectionOk, Merged, AllWithin, Roomy, Held, Opening, Present, UpTo, Limits.Fits, Inhabited, Packed, Full, Takes,
         RowStreams, HeldStreams;
    SectionRows(s);
    var used := NewBuffer(table, s.version, limits, output, seen, Inside(s, row));
    var fits := RoomFor(used, s, row);
    if fits.Err? { return Err(fits.error); }
    if !fits.value {
      NoRoom(limits, s, row);
      return Err(Limit);
    }
    return Ok(used);
  }

  // Appends one row, to a new section when it does not fit the current one.
  method AppendRow(buffer: SectionBuffer?, before: seq<Section>, table: nat, s: Section, row: nat, limits: Limits,
                   ghost seen: seq<Section>)
    returns (r: Result<(SectionBuffer?, seq<Section>)>, current: SectionBuffer?, output: seq<Section>)
    requires SectionOk(s) && row < |s.timestamps| && State(buffer, before, table, limits, seen, Inside(s, row))
    requires AllRowsBelow(seen, s.minTs)
    requires if buffer == null then Fresh(before, s.version) else buffer.version == s.version
    modifies buffer
    ensures r.Ok? ==> current != null && (current == buffer || fresh(current))
    ensures r.Ok? ==> State(current, output, table, limits, seen, Inside(s, row + 1))
    ensures r.Err? ==> !OneType(seen + [s]) || !Roomy(limits, [s])
  {
    hide SectionOk, Merged, AllWithin, AllRowsBelow, OneType, Roomy, Held, Opening, Present, UpTo, State, Limits.Fits;
    current := buffer;
    var fit;
    fit, output := FitRow(buffer, before, table, s, row, limits, seen);
    if fit.Err? { return Err(fit.error), current, output; }
    current := fit.value;
    r := PushRow(fit.value, output, table, s, row, limits, seen);
  }

  // Puts a row that fits into a buffer of its version.
  method PushRow(used: SectionBuffer, output: seq<Section>, table: nat, s: Section, row: nat, limits: Limits,
                 ghost seen: seq<Section>)
    returns (r: Result<(SectionBuffer?, seq<Section>)>)
    requires SectionOk(s) && row < |s.timestamps| && AllRowsBelow(seen, s.minTs)
    requires Ready(used, output, table, limits, seen, s, row)
    requires limits.Fits(|used.timestamps| + 1,
                         |used.columns| + Opening(s.columns, |s.timestamps|, row, used.columns.Keys),
                         used.facts + Present(s.columns, |s.timestamps|, row))
    modifies used
    ensures r.Ok? ==> State(used, output, table, limits, seen, Inside(s, row + 1))
    ensures r.Err? ==> !OneType(seen + [s])
  {
    hide SectionOk, Merged, SectionTags, AllWithin, AllRowsBelow, OneType, Held, Opening, Present, UpTo, Used, RowTags,
         Clashes, Inhabited, Packed, Full, RowStreams, HeldStreams;
    ghost var p := PendingOf(used);
    MergedRowsBelow(output, p, table, seen, s, row);
    var pushed := used.Push(s, row);
    if pushed.Err? {
      ClashRead(output, p, table, seen, s, row);
      return Err(pushed.error);
    }
    MergedRow(output, p, used.columns, table, seen, s, row);
    return Ok((used, output));
  }

  lemma MergedRowsBelow(output: seq<Section>, p: Pending, table: nat, seen: seq<Section>, s: Section, r: nat)
    requires SectionsOk(output) && SectionsOk(seen) && p.Even() && SectionOk(s) && r < |s.timestamps|
    requires Merged(output, p, table, seen, Inside(s, r)) && AllRowsBelow(seen, s.minTs)
    ensures output != [] ==> Last(output).maxTs < s.timestamps[r]
    ensures p.rows != [] ==> Last(p.rows) < s.timestamps[r]
  {
    hide SectionOk, UpTo, SealedTags, Held, AllRowsBelow, AllRows, AllVersions, Copies, Used;
    RowsBelow(output, p.rows, seen, s, r);
    if p.rows != [] { assert Last(p.rows) in p.rows; }
  }

  lemma NotMeasured(limits: Limits, s: Section, rows: nat, streams: nat, facts: nat)
    requires SectionOk(s) && limits.measure(rows, streams, facts).None?
    ensures SectionsOk([s]) && !Roomy(limits, [s])
  {
  }

  lemma NoRoom(limits: Limits, s: Section, r: nat)
    requires SectionOk(s) && r < |s.timestamps| && !RowFits(limits, s, r)
    ensures SectionsOk([s]) && !Roomy(limits, [s])
  {
    assert [s][0] == s;
  }

  /**
   Appends a section row by row; a row that does not fit begins a new section, and so does a
   new version.
   */
  method AppendSection(buffer: SectionBuffer?, before: seq<Section>, table: nat, s: Section, limits: Limits,
                       ghost seen: seq<Section>)
    returns (r: Result<(SectionBuffer?, seq<Section>)>)
    requires State(buffer, before, table, limits, seen, Between) && SectionOk(s) && SectionsOk(seen + [s])
    requires AllRowsBelow(seen, s.minTs) && (buffer == null ==> before == [])
    modifies buffer
    ensures r.Ok? ==> r.value.0 == null || r.value.0 == buffer || fresh(r.value.0)
    ensures r.Ok? && r.value.0 == null ==> r.value.1 == []
    ensures r.Ok? ==> State(r.value.0, r.value.1, table, limits, seen + [s], Between)
    ensures r.Err? ==> !OneType(seen + [s]) || !Roomy(limits, [s])
  {
    hide SectionOk, Merged, SectionTags, AllWithin, AllRowsBelow, InUse, OneType, Roomy, UpTo, Packed, Joined, Full,
         Takes;
    var current, output := buffer, before;
    MergedSection(output, PendingOf(current), table, seen, s);
    SectionRows(s);
    for row := 0 to |s.timestamps|
      invariant current == null || current == buffer || fresh(current)
      invariant State(current, output, table, limits, seen, Inside(s, row)) && (current == null ==> output == [])
    {
      if current != null && current.version != s.version {
        output := FlushBuffer(current, output, table, limits, seen, Inside(s, row));
        current := null;
      }
      r, current, output := AppendRow(current, output, table, s, row, limits, seen);
      if r.Err? { return; }
    }
    MergedSection(output, PendingOf(current), table, seen, s);
    return Ok((current, output));
  }

  lemma NothingMerged(table: nat, limits: Limits)
    ensures State(null, [], table, limits, [], Between)
  {
  }

  lemma PackedJoin(limits: Limits, a: seq<Section>, b: seq<Section>)
    requires SectionsOk(a) && SectionsOk(b) && Packed(limits, a) && Packed(limits, b)
    requires a != [] && b != [] ==> Last(a).table != b[0].table
    ensures SectionsOk(a + b) && Packed(limits, a + b)
  {
    hide SectionOk, Full, RowStreams;
    SectionsJoin(a, b);
    var all := a + b;
    forall i | 0 < i < |all| ensures PackedAt(limits, all, i) {
      if i < |a| {
        assert PackedAt(limits, a, i);
      } else if i > |a| {
        assert PackedAt(limits, b, i - |a|);
      }
    }
  }

  // The rows of the sections of a chain lie below the section that follows.
  lemma {:induction false} RowsBelowNext(seen: seq<Section>, ts: int)
    requires SectionsOk(seen) && Chain(seen) && (seen != [] ==> Last(seen).maxTs < ts)
    ensures AllRowsBelow(seen, ts)
    decreases |seen|
  {
    if seen != [] {
      var n := |seen| - 1;
      var s := seen[n];
      assert SectionOk(s);
      SectionOrder(s);
      RowsBelowNext(seen[..n], ts);
      assert forall i | 0 <= i < |s.timestamps| :: s.timestamps[i] <= Last(s.timestamps);
    }
  }

  /** The sections of a table that can be merged: in order, of known versions, of one type and within the limits. */
  ghost predicate Mergeable(t: Table, limits: Limits, ss: seq<Section>)
    requires SectionsOk(ss)
  {
    Chain(ss) && AllKnown(t, ss) && OneType(ss) && Roomy(limits, ss)
  }

  /**
   Writes the sections of one table again; that fails only for sections that are out of order,
   of unknown versions, of two types in one version, or with a row that no section has room for.
   */
  method MergeTable(inputs: seq<Unit>, table: nat, t: Table, limits: Limits) returns (r: Result<seq<Section>>)
    requires UnitsOk(inputs)
    ensures SectionsOk(SectionsOf(inputs, table))
    ensures r.Ok? ==> SectionsOk(r.value) && Rewritten(SectionsOf(inputs, table), r.value, table)
    ensures r.Ok? ==> AllWithin(limits, r.value) && Packed(limits, r.value) && AllKnown(t, SectionsOf(inputs, table))
    ensures r.Err? ==> !Mergeable(t, limits, SectionsOf(inputs, table))
  {
    hide UnitOk, SectionOk, Merged, VersionKnown, Within, AllRowsBelow, Held, Picked, State, Mergeable, Rewritten, UpTo,
         AllWithin, Packed, Full, Takes;
    SectionsOfOk(inputs, table);
    var current: SectionBuffer?, output, previousMax: Option<I64> := null, [], None;
    NothingMerged(table, limits);
    assert SectionsOf(inputs[..0], table) == [];
    for i := 0 to |inputs|
      invariant current == null || fresh(current)
      invariant SectionsOk(SectionsOf(inputs[..i], table))
      invariant State(current, output, table, limits, SectionsOf(inputs[..i], table), Between)
      invariant current == null ==> output == []
      invariant Follows(SectionsOf(inputs[..i], table), previousMax, t)
    {
      var sections := TableSections(inputs[i].sections, table);
      ghost var seen := SectionsOf(inputs[..i], table);
      UnitLast(inputs, i, table);
      SectionsOfOk(inputs[..i + 1], table);
      SectionsParts(seen, sections);
      r, current, output, previousMax := MergeUnit(current, output, table, t, sections, limits, previousMax, seen);
      if r.Err? {
        MergeablePrefix(inputs, i + 1, table, t, limits);
        return;
      }
    }
    Sequences.Neutral(inputs);
    output := FlushBuffer(current, output, table, limits, SectionsOf(inputs, table), Between);
    MergedAll(output, table, limits, SectionsOf(inputs, table));
    return Ok(output);
  }

  lemma MergeablePrefix(inputs: seq<Unit>, i: nat, table: nat, t: Table, limits: Limits)
    requires UnitsOk(inputs) && i <= |inputs|
    ensures SectionsOk(SectionsOf(inputs, table)) && SectionsOk(SectionsOf(inputs[..i], table))
    ensures Mergeable(t, limits, SectionsOf(inputs, table)) ==> Mergeable(t, limits, SectionsOf(inputs[..i], table))
  {
    hide UnitOk, SectionOk, Mergeable;
    SectionsOfOk(inputs, table);
    SectionsOfOk(inputs[..i], table);
    SectionsOfOk(inputs[i..], table);
    Sequences.Cut(inputs, i);
    SectionsConcat(inputs[..i], inputs[i..], table);
    MergeableTake(t, limits, SectionsOf(inputs[..i], table), SectionsOf(inputs[i..], table));
  }

  lemma MergeableTake(t: Table, limits: Limits, a: seq<Section>, b: seq<Section>)
    requires SectionsOk(a) && SectionsOk(b)
    ensures SectionsOk(a + b) && (Mergeable(t, limits, a + b) ==> Mergeable(t, limits, a))
  {
    hide SectionOk, VersionKnown, RowFits;
    SectionsJoin(a, b);
    ChainTake(a, b);
    assert forall i | 0 <= i < |a| :: (a + b)[i] == a[i];
    if Mergeable(t, limits, a + b) { OneTypeTake(a, b); }
  }

  lemma OneTypeTake(a: seq<Section>, b: seq<Section>)
    requires OneType(a + b)
    ensures OneType(a)
  {
    forall i, j | 0 <= i < |a| && 0 <= j < |a| && a[i].version == a[j].version
      ensures forall x, y | x in a[i].columns && y in a[j].columns && StreamOf(x) == StreamOf(y) :: x.kind == y.kind
    {
      assert (a + b)[i] == a[i] && (a + b)[j] == a[j];
    }
  }

  // The sections so far follow each other, are of known versions and end here.
  ghost predicate Follows(seen: seq<Section>, previousMax: Option<I64>, t: Table) {
    Chain(seen) && AllKnown(t, seen) && previousMax == if seen == [] then None else Some(Last(seen).maxTs)
  }

  // The sections of one unit.
  method MergeUnit(buffer: SectionBuffer?, before: seq<Section>, table: nat, t: Table, sections: seq<Section>,
                   limits: Limits, latest: Option<I64>, ghost seen: seq<Section>)
    returns (r: Result<seq<Section>>, current: SectionBuffer?, output: seq<Section>, previousMax: Option<I64>)
    requires State(buffer, before, table, limits, seen, Between) && SectionsOk(sections) && Follows(seen, latest, t)
    requires buffer == null ==> before == []
    modifies buffer
    ensures SectionsOk(seen + sections)
    ensures r.Ok? ==> current == null || current == buffer || fresh(current)
    ensures r.Ok? ==> State(current, output, table, limits, seen + sections, Between)
    ensures r.Ok? && current == null ==> output == []
    ensures r.Ok? ==> Follows(seen + sections, previousMax, t)
    ensures r.Err? ==> !Mergeable(t, limits, seen + sections)
  {
    hide SectionOk, Merged, VersionKnown, AllWithin, InUse, AllRowsBelow, Held, Follows, Mergeable, OneType, Roomy,
         UpTo, Packed, Joined;
    current, output, previousMax := buffer, before, latest;
    Sequences.Neutral(seen);
    SectionsJoin(seen, sections);
    for j := 0 to |sections|
      invariant current == null || current == buffer || fresh(current)
      invariant SectionsOk(seen + sections[..j])
      invariant State(current, output, table, limits, seen + sections[..j], Between)
      invariant current == null ==> output == []
      invariant Follows(seen + sections[..j], previousMax, t)
    {
      var s := sections[j];
      Sequences.Around(sections, j);
      Sequences.Associative(seen, sections[..j], [s]);
      Sequences.Associative(seen, sections[..j + 1], sections[j + 1..]);
      SectionsJoin(seen, sections[..j + 1]);
      MergeableTake(t, limits, seen + sections[..j + 1], sections[j + 1..]);
      if previousMax.Some? && previousMax.value >= s.minTs {
        NotMergeable(t, limits, seen + sections[..j], previousMax, s);
        return Err(Corruption), current, output, previousMax;
      }
      if !VersionKnown(t, s) {
        NotMergeable(t, limits, seen + sections[..j], previousMax, s);
        return Err(Corruption), current, output, previousMax;
      }
      FollowsNext(seen + sections[..j], previousMax, t, s);
      var appended := AppendSection(current, output, table, s, limits, seen + sections[..j]);
      if appended.Err? {
        NotMergeable(t, limits, seen + sections[..j], previousMax, s);
        return Err(appended.error), current, output, previousMax;
      }
      current, output := appended.value.0, appended.value.1;
      previousMax := Some(s.maxTs);
    }
    Sequences.Neutral(sections);
    r := Ok(output);
  }

  lemma NotMergeable(t: Table, limits: Limits, seen: seq<Section>, previousMax: Option<I64>, s: Section)
    requires SectionsOk(seen) && SectionOk(s) && Follows(seen, previousMax, t) && SectionsOk([s])
    requires (previousMax.Some? && previousMax.value >= s.minTs) || !VersionKnown(t, s) || !OneType(seen + [s])
             || !Roomy(limits, [s])
    ensures SectionsOk(seen + [s]) && !Mergeable(t, limits, seen + [s])
  {
    hide SectionOk, VersionKnown, OneType, RowFits;
    var all := seen + [s];
    assert SectionsOk(all);
    assert all[|seen|] == s && (seen != [] ==> all[|seen| - 1] == Last(seen));
    if !Roomy(limits, [s]) { NoRoomIn(limits, seen, s); }
  }

  lemma NoRoomIn(limits: Limits, seen: seq<Section>, s: Section)
    requires SectionsOk(seen) && SectionOk(s) && SectionsOk([s]) && !Roomy(limits, [s]) && SectionsOk(seen + [s])
    ensures !Roomy(limits, seen + [s])
  {
    hide SectionOk, RowFits;
    assert (seen + [s])[|seen|] == s;
  }

  lemma FollowsNext(seen: seq<Section>, previousMax: Option<I64>, t: Table, s: Section)
    requires SectionsOk(seen) && SectionOk(s) && Follows(seen, previousMax, t) && VersionKnown(t, s)
    requires (previousMax.Some? ==> previousMax.value < s.minTs)
    ensures SectionsOk(seen + [s]) && Follows(seen + [s], Some(s.maxTs), t) && AllRowsBelow(seen, s.minTs)
  {
    hide SectionOk, AllRowsBelow, VersionKnown;
    RowsBelowNext(seen, s.minTs);
    assert SectionsOk(seen + [s]);
    if seen != [] { assert SectionOk(Last(seen)); SectionOrder(Last(seen)); }
    ChainSnoc(seen, s);
  }

  /**
   The same table in other sections: of every key exactly its facts, each under its type and
   version, and exactly the rows, each of its version, in sections of one version that follow
   each other. No column is without a fact.
   */
  ghost predicate Rewritten(before: seq<Section>, after: seq<Section>, table: nat)
    requires SectionsOk(before) && SectionsOk(after)
  {
    && (forall k: Key | k.table == table ::
          SealedTags(after, k) == SealedTags(before, k) && SealedFacts(after, k) == SealedFacts(before, k))
    && AllRows(after) == AllRows(before) && AllVersions(after) == AllVersions(before) && Chain(after)
    && forall i | 0 <= i < |after| :: after[i].table == table && Used(after[i])
  }

  lemma MergedAll(output: seq<Section>, table: nat, limits: Limits, seen: seq<Section>)
    requires State(null, output, table, limits, seen, Between)
    ensures SectionsOk(output) && SectionsOk(seen) && AllWithin(limits, output) && Rewritten(seen, output, table)
    ensures Packed(limits, output)
  {
    hide Packed, SectionOk, SealedTags, SealedFacts, Held, AllRows, AllVersions, AllWithin, Used, Copies;
    CopiesNext(0, 0);
    Sequences.Neutral(AllRows(output));
    Sequences.Neutral(AllRows(seen));
    Sequences.Neutral(AllVersions(output));
    Sequences.Neutral(AllVersions(seen));
    forall k: Key | k.table == table
      ensures SealedTags(output, k) == SealedTags(seen, k) && SealedFacts(output, k) == SealedFacts(seen, k)
    {
      HeldNothing(0, (k.series, k.field));
      Sequences.Neutral(SealedTags(output, k));
      Sequences.Neutral(SealedTags(seen, k));
      TagsAreFacts(output, k);
      TagsAreFacts(seen, k);
    }
  }

  function Facts(tags: seq<Tagged>): seq<Fact> { seq(|tags|, i requires 0 <= i < |tags| => tags[i].fact) }

  lemma FactsJoin(a: seq<Tagged>, b: seq<Tagged>)
    ensures Facts(a + b) == Facts(a) + Facts(b)
  {
  }

  lemma {:induction false} TagsAreFacts(ss: seq<Section>, k: Key)
    requires SectionsOk(ss)
    ensures Facts(SealedTags(ss, k)) == SealedFacts(ss, k)
    decreases |ss|
  {
    if ss != [] {
      var n := |ss| - 1;
      hide SectionOk, SectionTags, SectionFacts, Facts;
      TagsAreFacts(ss[..n], k);
      FactsJoin(SealedTags(ss[..n], k), SectionTags(ss[n], k));
      SectionTagsAreFacts(ss[n], k);
    }
  }

  lemma SectionTagsAreFacts(s: Section, k: Key)
    requires SectionOk(s)
    ensures Facts(SectionTags(s, k)) == SectionFacts(s, k)
  {
    hide Picked;
  }
}
