/**
 One open database's handle on the shared log: exporting its durable history above the
 archive release, with the index it keeps between exports, and releasing it.
 */
module SharedMembers {
  import opened Prelude
  import opened FrameFormat
  import opened LogState
  import opened ThreadLaws
  import opened LogPush
  import opened LogSeal
  import opened LogMembers
  import opened LogCrash
  import opened LogRuns
  import opened LogScanLaws
  import opened LogReplay
  import opened LogReopen
  import opened LogExport
  import opened LogNeeds
  import opened SharedWals
  import Sequences

  /** How far an export reaches: to the end of the index it continues, or else to the durable end. */
  ghost function Reach(w: World, d: Id, index: Option<ExportIndex>, after: Cursor): nat
    requires d in w.disk.ledger.manifests
  {
    if index.Some? && index.value.cursor == after && index.value.remaining > 0 then index.value.end.seqNo
    else DurableOf(w, d)
  }

  // From a header alone to the largest chunk.
  predicate InBudget(maxBytes: nat) { EXPORT_HEADER <= maxBytes <= MAX_EXPORT_BYTES }

  // The chunk that an export after this boundary answers.
  ghost predicate ChunkFrom(w: World, d: Id, index: Option<ExportIndex>, after: Cursor, maxBytes: nat, c: Chunk)
    requires RecordBoundary(w, d, after)
  {
    Exported(c, w.mem.members[d].archive.value.released, w.past.accepted[d], Reach(w, d, index, after), after, maxBytes)
  }

  // Not even the next record fits.
  ghost predicate TooLong(w: World, d: Id, after: Cursor, maxBytes: nat)
    requires RecordBoundary(w, d, after)
  {
    after.seqNo < DurableOf(w, d) && after.seqNo < |w.past.accepted[d]|
      && ChunkBytes([w.past.accepted[d][after.seqNo]]) > maxBytes
  }

  // A protected member's index, and where it stands.
  ghost predicate Indexed(w: World, d: Id, x: ExportIndex) {
    && MayRetire(w, d) && w.mem.members[d].archive.Some? && IndexOk(LogsOf(w), d, x)
    && RecordBoundary(w, d, x.cursor)
  }

  class SharedMember {
    const owner: SharedWal
    const id: Id
    var exportIndex: Option<ExportIndex>

    ghost predicate Valid()
      reads this, owner
    {
      owner.Valid() && (!owner.poison && exportIndex.Some? ==> IndexOk(LogsOf(owner.Now()), id, exportIndex.value))
    }

    constructor (owner: SharedWal, id: Id)
      requires owner.Valid()
      ensures Valid() && this.owner == owner && this.id == id && exportIndex == None
    {
      this.owner, this.id, exportIndex := owner, id, None;
    }

    /** The release and the durable end of the protected history. */
    method ArchiveStatus() returns (r: Result<(Cursor, Cursor)>)
      requires Valid()
      requires id in owner.members ==> !owner.members[id].retired
      ensures r.Ok? <==> !owner.poison && id in owner.members && owner.members[id].archive.Some?
      ensures r.Ok? ==>
        r.value == (owner.members[id].archive.value.released, ReportedCursor(owner.members[id], owner.durable))
      ensures r.Ok? ==> MayRetire(owner.Now(), id)
    {
      hide OnDisk, InMemory, LogsOf, IndexOk, MayRetire;
      if owner.poison { return Err(Poisoned); }
      if id !in owner.members { return Err(Corruption); }
      if owner.members[id].archive.None? { return Err(Invalid); }
      HealthyIs(owner.Now());
      MayRetireNow(owner.Now(), id);
      var member := owner.members[id];
      var p := member.archive.value;
      return Ok((p.released, if member.lsn <= owner.durable then p.latest else p.durable));
    }

    /** Walks back from the durable end to a record boundary and keeps the positions it meets. */
    method Build(baseline: Cursor) returns (x: ExportIndex)
      requires MayRetire(owner.Now(), id) && RecordBoundary(owner.Now(), id, baseline)
      ensures Indexed(owner.Now(), id, x) && x.cursor == baseline
      ensures x.end.seqNo == DurableOf(owner.Now(), id) && x.end == ReportedCursor(owner.members[id], owner.durable)
    {
      hide MayRetire, RecordBoundary, DurableOf, Backward, Located, OnDisk, IndexOk, LogsOf, Keep;
      ghost var w := owner.Now();
      BoundaryFacts(w, id, baseline);
      var member := owner.members[id];
      var pointer := if member.lsn <= owner.durable then member.latest else member.durablePointer;
      var end := if member.lsn <= owner.durable then member.archive.value.latest else member.archive.value.durable;
      var last := if member.lsn <= owner.durable then member.seqNo else member.durableSeq;
      var scratch: seq<Pointer> := [];
      if baseline.seqNo < last {
        // The walk cannot fail: `DurableWalk`.
        ghost var ps := DurableWalk(w, id, baseline.seqNo);
        var walked := WalkBack(owner.disk.files, id, pointer, last, baseline.seqNo);
        scratch := walked.value;
      }
      x := ExportIndex(baseline, end, last - baseline.seqNo, scratch);
      BuiltOk(w, id, x);
    }

    // The record that the index delivers next.
    method Peek(x: ExportIndex) returns (r: Result<Raw>)
      requires Indexed(owner.Now(), id, x)
      ensures r.Ok? <==> x.remaining > 0
      ensures r.Ok? ==> NextRecord(owner.Now(), id, x, r.value)
    {
      hide Indexed, ReadFrame;
      if x.remaining == 0 { return Err(Corruption); }
      IndexedNext(owner.Now(), id, x);
      // The frame is still where the index found it: `IndexSurvives`.
      var frame := ReadFrame(owner.disk.files, x.scratch[x.remaining - 1]);
      return Ok(frame.value.raw);
    }

    // Moves the index past a record.
    method Consume(x: ExportIndex, raw: Raw) returns (r: Result<ExportIndex>)
      requires Indexed(owner.Now(), id, x) && x.remaining > 0 && NextRecord(owner.Now(), id, x, raw)
      ensures r.Ok? && Indexed(owner.Now(), id, r.value)
      ensures r.value == x.(cursor := Advance(x.cursor, raw), remaining := x.remaining - 1)
    {
      hide Indexed, NextRecord, Advanced, Advance;
      ConsumedNext(owner.Now(), id, x, raw);
      var cursor := Advanced(x.cursor, raw).value;
      var y := x.(cursor := cursor, remaining := x.remaining - 1);
      // The chain ends where the index says: `ConsumedNext`.
      assert y.remaining == 0 ==> y.cursor == y.end;
      return Ok(y);
    }

    /**
     Makes the index stand at a cursor: keeps a cached one that has records left or ends at
     the durable end, continues an exhausted one, and rebuilds from the release otherwise.
     */
    method EnsureExportIndex(after: Cursor) returns (r: Result<()>)
      requires Valid()
      requires id in owner.members ==> !owner.members[id].retired
      modifies this
      ensures Valid()
      ensures r.Ok? <==> !owner.poison && RecordBoundary(owner.Now(), id, after)
      ensures r.Ok? ==>
        exportIndex.Some? && Indexed(owner.Now(), id, exportIndex.value) && exportIndex.value.cursor == after
      ensures r.Ok? ==> exportIndex.value.end.seqNo == Reach(owner.Now(), id, old(exportIndex), after)
    {
      hide OnDisk, InMemory, LogsOf, IndexOk, MayRetire, RecordBoundary, Covers, DurableOf, Indexed;
      ghost var w := owner.Now();
      BoundaryMember(w, id, after);
      var status :- ArchiveStatus();
      var (earliest, end) := status;
      EarliestBoundary(w, id);
      BoundaryWithin(w, id, after);
      BoundaryAgain(w, id, after, exportIndex);
      CoversOrder(after, earliest);
      CoversOrder(end, after);
      var covered :- Covers(after, earliest);
      if !covered { return Err(Invalid); }
      var within :- Covers(end, after);
      if !within { return Err(Invalid); }
      var cached := exportIndex.Some? && exportIndex.value.cursor == after;
      if cached && (exportIndex.value.remaining > 0 || exportIndex.value.end == end) {
        return Ok(());
      }
      var baseline := if cached then after else earliest;
      exportIndex := None;
      var x := Build(baseline);
      x := Advancing(x, after);
      if x.cursor != after { return Err(Invalid); }
      IndexedIs(w, id, x);
      exportIndex := Some(x);
      return Ok(());
    }

    // Skips the records up to a cursor.
    method Advancing(start: ExportIndex, after: Cursor) returns (x: ExportIndex)
      requires Indexed(owner.Now(), id, start) && start.end.seqNo == DurableOf(owner.Now(), id)
      requires start.cursor.seqNo <= after.seqNo <= start.end.seqNo
      ensures Indexed(owner.Now(), id, x) && x.end == start.end
      ensures x.cursor == after <==> RecordBoundary(owner.Now(), id, after)
    {
      hide OnDisk, InMemory, LogsOf, IndexOk, MayRetire, RecordBoundary, DurableOf, Indexed, NextRecord;
      x := start;
      while x.cursor.seqNo < after.seqNo
        invariant Indexed(owner.Now(), id, x) && x.end == start.end && x.cursor.seqNo <= after.seqNo
        decreases after.seqNo - x.cursor.seqNo
      {
        IndexedCount(owner.Now(), id, x);
        var raw := Peek(x);
        var consumed := Consume(x, raw.value);
        x := consumed.value;
      }
      BoundaryUnique(owner.Now(), id, x, after);
    }

    // Whether a cursor is a durable record boundary.
    method VerifyCursor(cursor: Cursor) returns (r: Result<()>)
      requires Valid()
      requires id in owner.members ==> !owner.members[id].retired
      modifies this
      ensures Valid()
      ensures r.Ok? <==> !owner.poison && RecordBoundary(owner.Now(), id, cursor)
    {
      hide OnDisk, InMemory, LogsOf, IndexOk, MayRetire, RecordBoundary, DurableOf, Indexed;
      BoundaryMember(owner.Now(), id, cursor);
      var status :- ArchiveStatus();
      EarliestBoundary(owner.Now(), id);
      if cursor == status.0 || cursor == status.1 { return Ok(()); }
      r := EnsureExportIndex(cursor);
    }

    /**
     Exports the next records after a boundary, as many as the budget holds, up to the end
     of the index it continues. It fails exactly for a poisoned log, a cursor that is no durable
     record boundary, a budget out of range, or a record that no budget of this size holds.
     */
    method ExportDurable(after: Cursor, maxBytes: nat) returns (r: Result<Chunk>)
      requires Valid()
      requires id in owner.members ==> !owner.members[id].retired
      modifies this
      ensures Valid()
      ensures r.Ok? ==> !owner.poison && RecordBoundary(owner.Now(), id, after)
      ensures r.Ok? ==> ChunkFrom(owner.Now(), id, old(exportIndex), after, maxBytes, r.value)
      ensures r.Ok? ==> RecordBoundary(owner.Now(), id, r.value.end)
      ensures r.Ok? <==>
        !owner.poison && InBudget(maxBytes) && RecordBoundary(owner.Now(), id, after)
        && !TooLong(owner.Now(), id, after, maxBytes)
    {
      hide OnDisk, InMemory, LogsOf, IndexOk, MayRetire, RecordBoundary, DurableOf, Indexed, NextRecord, ChunkFrom,
           Covers, ChunkBytes, TooLong;
      if !InBudget(maxBytes) { return Err(Invalid); }
      ghost var w := owner.Now();
      BoundaryMember(w, id, after);
      var status :- ArchiveStatus();
      EarliestBoundary(w, id);
      if after == status.1 {
        NothingNew(w, id, exportIndex, after, maxBytes);
        NothingLong(w, id, exportIndex, after, maxBytes, Chunk(after, after, []));
        return Ok(Chunk(after, after, []));
      }
      ghost var cached := exportIndex;
      var _ :- EnsureExportIndex(after);
      r := Fill(after, maxBytes);
      if r.Ok? {
        Filled(w, id, cached, exportIndex.value, after, maxBytes, r.value);
        NothingLong(w, id, cached, after, maxBytes, r.value);
      } else { Unfilled(w, id, exportIndex.value, after, maxBytes); }
    }

    // Fills a chunk from the index, one record after the other.
    method Fill(after: Cursor, maxBytes: nat) returns (r: Result<Chunk>)
      requires Valid() && exportIndex.Some? && Indexed(owner.Now(), id, exportIndex.value)
      requires exportIndex.value.cursor == after
      requires EXPORT_HEADER <= maxBytes
      modifies this
      ensures Valid() && exportIndex.Some? && Indexed(owner.Now(), id, exportIndex.value)
      ensures exportIndex.value.end == old(exportIndex.value.end)
      ensures r.Ok? ==> r.value.start == after && r.value.end == exportIndex.value.cursor
      ensures r.Ok? ==> Filling(owner.Now(), id, after, exportIndex.value, r.value.records, maxBytes)
      ensures r.Ok? && exportIndex.value.remaining > 0 ==>
        r.value.records != [] && NoRoom(owner.Now(), id, exportIndex.value, r.value.records, maxBytes)
      ensures r.Err? ==> exportIndex.value.cursor == after && exportIndex.value.remaining > 0
      ensures r.Err? ==> NoRoom(owner.Now(), id, exportIndex.value, [], maxBytes)
    {
      hide OnDisk, InMemory, LogsOf, IndexOk, Indexed, NextRecord, Filling, NoRoom, ChunkBytes;
      ghost var w := owner.Now();
      var records: seq<Raw> := [];
      var bytes := EXPORT_HEADER;
      FillStart(w, id, exportIndex.value, maxBytes);
      while exportIndex.value.remaining > 0
        invariant exportIndex.Some? && Indexed(w, id, exportIndex.value)
          && exportIndex.value.end == old(exportIndex.value.end)
        invariant bytes == ChunkBytes(records) && Filling(w, id, after, exportIndex.value, records, maxBytes)
        invariant records == [] ==> exportIndex.value.cursor == after
        decreases exportIndex.value.remaining
      {
        var x := exportIndex.value;
        var raw := Peek(x);
        var growth := |raw.value| + RECORD_OVERHEAD;
        ChunkSnoc(records, raw.value);
        if bytes + growth > maxBytes {
          FillEnds(w, id, x, records, raw.value, maxBytes);
          IndexedIs(w, id, x);
          if records == [] { return Err(Limit); }
          return Ok(Chunk(after, x.cursor, records));
        }
        var consumed := Consume(x, raw.value);
        FillNext(w, id, after, x, consumed.value, records, raw.value, maxBytes);
        exportIndex := Some(consumed.value);
        records := records + [raw.value];
        bytes := bytes + growth;
      }
      IndexedIs(w, id, exportIndex.value);
      return Ok(Chunk(after, exportIndex.value.cursor, records));
    }

    /** Releases a protected prefix; the cursor must be a durable record boundary of the chain. */
    method ReleaseArchive(through: Cursor) returns (r: Result<()>)
      requires Valid()
      requires id in owner.members ==> !owner.members[id].retired
      modifies this, owner
      ensures Valid() && owner.past.accepted == old(owner.past.accepted) && (old(owner.poison) ==> owner.poison)
      ensures r.Ok? ==> !owner.poison && id in owner.members && owner.members[id].archive.Some?
      ensures r.Ok? ==>
        owner.members[id].archive.value.released == through && old(RecordBoundary(owner.Now(), id, through))
      ensures r.Err? ==> owner.poison || !old(RecordBoundary(owner.Now(), id, through))
      ensures OthersKept(old(owner.Now()), owner.Now(), id) && Lingers(old(owner.Now()), owner.Now(), id)
      ensures StaysOpen(old(owner.Now()), owner.Now(), id)
      ensures Rereleases(old(owner.disk.ledger), owner.disk.ledger, id, through)
      ensures r.Ok? && owner.disk.ledger != old(owner.disk.ledger) ==> Tight(owner.Now())
      ensures owner.past.protections == old(owner.past.protections)
      ensures Grows(old(LogsOf(owner.Now())), LogsOf(owner.Now()))
    {
      hide OnDisk, InMemory, LogsOf, Grows, IndexOk, MayRetire, RecordBoundary, DurableOf, Indexed, Tight;
      ghost var w := owner.Now();
      GrowsSelf(LogsOf(w));
      BoundaryMember(w, id, through);
      var verified :- VerifyCursor(through);
      ghost var index := exportIndex;
      r := owner.Release(id, through);
      if index.Some? && !owner.poison { IndexGrows(w, owner.Now(), id, index.value); }
    }
  }

  // ------------------------------------------------------------- boundaries

  lemma BoundaryMember(w: World, d: Id, c: Cursor)
    ensures RecordBoundary(w, d, c) ==>
      d in w.mem.members && w.mem.members[d].archive.Some? && d in w.disk.ledger.manifests && d in w.past.accepted
  {
    hide CursorAt, DurableOf;
  }

  lemma CoversOrder(a: Cursor, b: Cursor)
    ensures Covers(a, b) == Ok(true) ==> a.seqNo >= b.seqNo
  {
  }

  // What a protected member says about a boundary.
  lemma BoundaryFacts(w: World, d: Id, c: Cursor)
    requires MayRetire(w, d) && RecordBoundary(w, d, c)
    ensures d in w.past.accepted && d in w.disk.ledger.manifests && d in w.mem.members && w.mem.members[d].archive.Some?
    ensures Keep(w.disk.ledger, d) <= c.seqNo <= DurableOf(w, d) == ReportedSeq(w.mem.members[d], w.mem.durable)
  {
    hide OnDisk, InMemory, DurableOf, CursorAt, Keep;
    ArchiveFacts(w, d);
  }

  lemma BoundaryWithin(w: World, d: Id, c: Cursor)
    requires MayRetire(w, d) && w.mem.members[d].archive.Some?
    ensures RecordBoundary(w, d, c) ==>
      && Covers(c, w.mem.members[d].archive.value.released) == Ok(true)
      && Covers(ReportedCursor(w.mem.members[d], w.mem.durable), c) == Ok(true)
  {
    hide MayRetire, RecordBoundary, Covers;
    if RecordBoundary(w, d, c) { BoundaryCovers(w, d, c); }
  }

  /** The release and the durable end are boundaries themselves. */
  lemma EarliestBoundary(w: World, d: Id)
    requires MayRetire(w, d) && w.mem.members[d].archive.Some?
    ensures RecordBoundary(w, d, w.mem.members[d].archive.value.released)
    ensures RecordBoundary(w, d, ReportedCursor(w.mem.members[d], w.mem.durable))
    ensures d in w.disk.ledger.manifests && ReportedCursor(w.mem.members[d], w.mem.durable).seqNo == DurableOf(w, d)
  {
    hide OnDisk, InMemory, DurableOf, RawBytes, Keep;
    ArchiveFacts(w, d);
    CursorSelf(w.mem.members[d].archive.value.released, w.past.accepted[d]);
  }

  // In terms of the promise, a boundary is a cursor on the chain at or above the release.
  lemma BoundaryOnChain(w: World, d: Id, c: Cursor)
    requires MayRetire(w, d) && w.mem.members[d].archive.Some?
    ensures var l := LogsOf(w);
      && d in w.past.accepted && d in l.accepted && d in l.released && d in l.durable && d in l.frames
      && l.released[d] == w.mem.members[d].archive.value.released && l.accepted[d] == w.past.accepted[d]
      && d in w.disk.ledger.manifests && l.durable[d] == DurableOf(w, d) <= |w.past.accepted[d]|
      && l.frames[d] == FramesOf(w, d)
      && l.released[d].seqNo <= l.durable[d]
      && (RecordBoundary(w, d, c) <==> l.released[d].seqNo <= c.seqNo && OnChain(l, d, c))
  {
    hide OnDisk, InMemory, DurableOf, CursorAt, FramesOf, Keep;
    ArchiveFacts(w, d);
  }

  lemma BoundaryAgain(w: World, d: Id, c: Cursor, index: Option<ExportIndex>)
    requires MayRetire(w, d) && w.mem.members[d].archive.Some? && d in w.disk.ledger.manifests
    requires index.Some? ==> IndexOk(LogsOf(w), d, index.value)
    ensures Covers(c, w.mem.members[d].archive.value.released) == Ok(true) && index.Some? && index.value.cursor == c ==>
      RecordBoundary(w, d, c) && Indexed(w, d, index.value)
    ensures index.Some? && index.value.end == ReportedCursor(w.mem.members[d], w.mem.durable) ==>
      index.value.end.seqNo == DurableOf(w, d)
  {
    hide MayRetire, RecordBoundary, OnDisk, InMemory, LogsOf, DurableOf, FramesOf, CursorAt, Located;
    EarliestBoundary(w, d);
    BoundaryOnChain(w, d, c);
  }

  lemma BoundaryUnique(w: World, d: Id, x: ExportIndex, c: Cursor)
    requires Indexed(w, d, x) && x.cursor.seqNo == c.seqNo
    ensures x.cursor == c <==> RecordBoundary(w, d, c)
  {
    hide MayRetire, IndexOk, DurableOf, CursorAt;
  }

  // --------------------------------------------------------------- the index

  lemma IndexedIs(w: World, d: Id, x: ExportIndex)
    requires Indexed(w, d, x)
    ensures IndexOk(LogsOf(w), d, x)
  {
    hide IndexOk, LogsOf, MayRetire, RecordBoundary;
  }

  lemma BuiltOk(w: World, d: Id, x: ExportIndex)
    requires MayRetire(w, d) && RecordBoundary(w, d, x.cursor)
    requires d in w.mem.members && w.mem.members[d].archive.Some? && d in w.disk.ledger.manifests
    requires x.end == ReportedCursor(w.mem.members[d], w.mem.durable) && x.cursor.seqNo + x.remaining == DurableOf(w, d)
    requires x.remaining <= |x.scratch|
    requires forall k | 0 <= k < x.remaining :: Located(FramesOf(w, d), DurableOf(w, d) - k, x.scratch[k])
    ensures Indexed(w, d, x) && x.end.seqNo == DurableOf(w, d)
  {
    hide MayRetire, RecordBoundary, OnDisk, InMemory, LogsOf, DurableOf, FramesOf, CursorAt, Located;
    EarliestBoundary(w, d);
    BoundaryOnChain(w, d, x.cursor);
    BoundaryOnChain(w, d, x.end);
  }

  // What the index delivers next.
  ghost predicate NextRecord(w: World, d: Id, x: ExportIndex, raw: Raw) {
    d in w.past.accepted && x.cursor.seqNo < |w.past.accepted[d]| && raw == w.past.accepted[d][x.cursor.seqNo]
  }

  lemma IndexedCount(w: World, d: Id, x: ExportIndex)
    requires Indexed(w, d, x)
    ensures x.cursor.seqNo + x.remaining == x.end.seqNo
  {
    hide MayRetire, RecordBoundary, OnChain, Located, LogsOf;
  }

  /** The position of the next record is still good. */
  lemma IndexedNext(w: World, d: Id, x: ExportIndex)
    requires Indexed(w, d, x) && x.remaining > 0
    ensures x.remaining <= |x.scratch| && ReadFrame(w.disk.files, x.scratch[x.remaining - 1]).Ok?
    ensures NextRecord(w, d, x, ReadFrame(w.disk.files, x.scratch[x.remaining - 1]).value.raw)
  {
    hide RecordBoundary, OnDisk, InMemory, LogsOf, DurableOf, FramesOf, OnChain, ReadFrame, LegalFrame, MayRetire;
    BoundaryOnChain(w, d, x.cursor);
    MayRetireDisk(w, d);
    assert Located(FramesOf(w, d), x.cursor.seqNo + 1, x.scratch[x.remaining - 1]);
    var p :| p in FramesOf(w, d) && p.frame.seqNo == x.cursor.seqNo + 1 && p.at == x.scratch[x.remaining - 1];
    FrameReads(w, d, p);
  }

  lemma MayRetireDisk(w: World, d: Id)
    requires MayRetire(w, d)
    ensures OnDisk(w)
  {
    hide OnDisk, InMemory;
  }

  /** One record on, the index stands at the next boundary of the chain. */
  lemma ConsumedNext(w: World, d: Id, x: ExportIndex, raw: Raw)
    requires Indexed(w, d, x) && x.remaining > 0 && NextRecord(w, d, x, raw)
    ensures Advanced(x.cursor, raw) == Ok(Advance(x.cursor, raw))
    ensures var y := x.(cursor := Advance(x.cursor, raw), remaining := x.remaining - 1);
            Indexed(w, d, y) && (y.remaining == 0 ==> y.cursor == y.end)
  {
    hide RecordBoundary, OnDisk, InMemory, LogsOf, DurableOf, FramesOf, Located, CursorAt, InspectRecord, MayRetire,
         Keep, CursorFits;
    var y := x.(cursor := Advance(x.cursor, raw), remaining := x.remaining - 1);
    BoundaryOnChain(w, d, x.cursor);
    BoundaryOnChain(w, d, x.end);
    BoundaryOnChain(w, d, y.cursor);
    BoundaryMember(w, d, x.cursor);
    MayRetireDisk(w, d);
    ChainBounds(w, d);
    NeededRecords(w, d);
    var released, accepted := w.mem.members[d].archive.value.released, w.past.accepted[d];
    ChainStep(released, accepted, x.cursor.seqNo);
  }

  lemma ChainBounds(w: World, d: Id)
    requires MayRetire(w, d) && w.mem.members[d].archive.Some?
    ensures d in w.disk.ledger.archives && d in w.disk.ledger.manifests && d in w.past.accepted
    ensures w.disk.ledger.archives[d].released == w.mem.members[d].archive.value.released
    ensures CursorFits(w.disk.ledger.archives[d].released, w.past.accepted[d])
  {
    hide OnDisk, InMemory, DurableOf, CursorAt, Keep, CursorFits;
    ArchiveFacts(w, d);
    ArchiveBounds(w, d);
  }

  lemma ChainStep(released: Cursor, accepted: seq<Raw>, s: nat)
    requires released.seqNo <= s < |accepted| && CursorFits(released, accepted)
    ensures Advance(CursorAt(released, accepted, s), accepted[s]) == CursorAt(released, accepted, s + 1)
    ensures CursorAt(released, accepted, s + 1).offset <= U64_MAX && CursorAt(released, accepted, s).seqNo == s
  {
    RawNext(released, accepted, s + 1);
    CursorMonotone(released, accepted, s + 1);
    hide RawBytes;
  }

  // ----------------------------------------------------------------- filling

  // The records taken so far lead from the start to the index.
  ghost predicate Filling(w: World, d: Id, after: Cursor, x: ExportIndex, records: seq<Raw>, maxBytes: nat) {
    && d in w.past.accepted && after.seqNo <= x.cursor.seqNo <= |w.past.accepted[d]|
    && records == w.past.accepted[d][after.seqNo..x.cursor.seqNo] && ChunkBytes(records) <= maxBytes
  }

  // The next record does not fit.
  ghost predicate NoRoom(w: World, d: Id, x: ExportIndex, records: seq<Raw>, maxBytes: nat) {
    && d in w.past.accepted && x.cursor.seqNo < |w.past.accepted[d]|
    && ChunkBytes(records + [w.past.accepted[d][x.cursor.seqNo]]) > maxBytes
  }

  lemma FillStart(w: World, d: Id, x: ExportIndex, maxBytes: nat)
    requires Indexed(w, d, x) && EXPORT_HEADER <= maxBytes
    ensures ChunkBytes([]) == EXPORT_HEADER && Filling(w, d, x.cursor, x, [], maxBytes)
  {
    hide RecordBoundary, LogsOf, DurableOf, FramesOf, IndexOk, MayRetire;
    BoundaryOnChain(w, d, x.cursor);
  }

  lemma FillNext(w: World, d: Id, after: Cursor, x: ExportIndex, y: ExportIndex, records: seq<Raw>, raw: Raw,
                 maxBytes: nat)
    requires Filling(w, d, after, x, records, maxBytes) && NextRecord(w, d, x, raw)
    requires y.cursor == Advance(x.cursor, raw)
    requires ChunkBytes(records + [raw]) <= maxBytes
    ensures Filling(w, d, after, y, records + [raw], maxBytes)
  {
    hide ChunkBytes;
    SliceSnoc(w.past.accepted[d], after.seqNo, x.cursor.seqNo);
  }

  lemma FillEnds(w: World, d: Id, x: ExportIndex, records: seq<Raw>, raw: Raw, maxBytes: nat)
    requires NextRecord(w, d, x, raw) && ChunkBytes(records + [raw]) > maxBytes
    ensures NoRoom(w, d, x, records, maxBytes)
  {
    hide ChunkBytes;
  }

  lemma NothingNew(w: World, d: Id, index: Option<ExportIndex>, after: Cursor, maxBytes: nat)
    requires MayRetire(w, d) && w.mem.members[d].archive.Some?
    requires after == ReportedCursor(w.mem.members[d], w.mem.durable)
    requires index.Some? ==> IndexOk(LogsOf(w), d, index.value)
    requires EXPORT_HEADER <= maxBytes && RecordBoundary(w, d, after)
    ensures ChunkFrom(w, d, index, after, maxBytes, Chunk(after, after, []))
  {
    hide MayRetire, RecordBoundary, LogsOf, DurableOf, FramesOf, CursorAt, Located, OnDisk, InMemory;
    EarliestBoundary(w, d);
    BoundaryOnChain(w, d, after);
    ChunkEmpty();
    assert w.past.accepted[d][after.seqNo..after.seqNo] == [];
  }

  lemma Filled(w: World, d: Id, cached: Option<ExportIndex>, x: ExportIndex, after: Cursor, maxBytes: nat, c: Chunk)
    requires RecordBoundary(w, d, after) && Indexed(w, d, x) && x.end.seqNo == Reach(w, d, cached, after)
    requires c.start == after && c.end == x.cursor && Filling(w, d, after, x, c.records, maxBytes)
    requires x.remaining > 0 ==> c.records != [] && NoRoom(w, d, x, c.records, maxBytes)
    ensures ChunkFrom(w, d, cached, after, maxBytes, c) && RecordBoundary(w, d, c.end)
  {
    hide MayRetire, RecordBoundary, LogsOf, DurableOf, FramesOf, Located, OnDisk, InMemory, ChunkBytes, Reach;
    BoundaryOnChain(w, d, after);
    BoundaryOnChain(w, d, x.cursor);
    hide CursorAt;
  }

  // A chunk holds the next record, if there is one.
  lemma ChunkAhead(w: World, d: Id, index: Option<ExportIndex>, after: Cursor, maxBytes: nat, c: Chunk)
    requires MayRetire(w, d) && RecordBoundary(w, d, after) && ChunkFrom(w, d, index, after, maxBytes, c)
    requires index.Some? ==> IndexOk(LogsOf(w), d, index.value)
    ensures c.start == after && Reach(w, d, index, after) <= DurableOf(w, d)
    ensures after.seqNo < DurableOf(w, d) ==> after.seqNo < Reach(w, d, index, after)
    ensures if c.records == [] then after.seqNo == DurableOf(w, d) else after.seqNo < c.end.seqNo
  {
    hide DurableOf, ChunkBytes, CursorAt, MayRetire, Located, LogsOf;
    BoundaryOnChain(w, d, after);
  }

  lemma NothingLong(w: World, d: Id, index: Option<ExportIndex>, after: Cursor, maxBytes: nat, c: Chunk)
    requires MayRetire(w, d) && RecordBoundary(w, d, after) && ChunkFrom(w, d, index, after, maxBytes, c)
    requires index.Some? ==> IndexOk(LogsOf(w), d, index.value)
    ensures !TooLong(w, d, after, maxBytes)
  {
    hide DurableOf, ChunkBytes, CursorAt, MayRetire, LogsOf, IndexOk, RecordBoundary;
    ChunkAhead(w, d, index, after, maxBytes, c);
    BoundaryMember(w, d, after);
    if c.records != [] {
      ChunkFirst(c.records);
      assert c.records[0] == w.past.accepted[d][after.seqNo];
    }
  }

  lemma {:induction false} ChunkFirst(records: seq<Raw>)
    requires records != []
    ensures ChunkBytes([records[0]]) <= ChunkBytes(records)
    decreases |records|
  {
    hide ChunkBytes;
    var n := |records| - 1;
    Sequences.Snoc(records);
    ChunkSnoc(records[..n], records[n]);
    if n > 0 { ChunkFirst(records[..n]); }
  }

  lemma Unfilled(w: World, d: Id, x: ExportIndex, after: Cursor, maxBytes: nat)
    requires RecordBoundary(w, d, after) && Indexed(w, d, x) && x.cursor == after && x.remaining > 0
    requires NoRoom(w, d, x, [], maxBytes)
    ensures TooLong(w, d, after, maxBytes)
  {
    hide MayRetire, RecordBoundary, LogsOf, DurableOf, FramesOf, Located, OnDisk, InMemory, ChunkBytes, CursorAt;
    BoundaryOnChain(w, d, after);
    BoundaryOnChain(w, d, x.end);
    Sequences.Neutral([w.past.accepted[d][after.seqNo]]);
  }

  // An index stays good while the log grows.
  lemma IndexGrows(w: World, v: World, d: Id, x: ExportIndex)
    requires OnDisk(w) && OnDisk(v) && Grows(LogsOf(w), LogsOf(v)) && IndexOk(LogsOf(w), d, x) && d in v.past.accepted
    ensures IndexOk(LogsOf(v), d, x)
  {
    hide OnDisk, IndexOk, DurableOf, FramesOf, Retains;
    LogsSound(w);
    LogsSound(v);
    IndexSurvives(LogsOf(w), LogsOf(v), d, x);
  }
}
