/** What a reader stores of an export: the bytes of the chunk, which are accepted when they are read again. */
module ExportFormat {
  import opened Prelude
  import opened FrameFormat
  import opened LogState
  import opened ThreadLaws
  import opened LogMembers
  import opened LogCrash
  import opened LogExport
  import opened SharedMembers
  import opened SharedWals
  import opened ArchiveFormat
  import Sequences

  // The abstract position of a full cursor.
  function Project(c: ArchiveCursor): Cursor { Cursor(c.seqNo, c.offset) }

  /** The records of a chunk behind a cursor, each where the shared log says it ends: in one epoch and segment. */
  function Placed(at: ArchiveCursor, raws: seq<Raw>): (rs: seq<Record>)
    requires at.offset + RawBytes(raws) <= U64_MAX
    ensures |rs| == |raws|
  {
    if raws == [] then [] else
    Placed(at, raws[..|raws| - 1]) + [Record(at.epoch, at.segment, at.offset + RawBytes(raws), raws[|raws| - 1])]
  }

  // Records that continue from a number.
  predicate Numbered(seqNo: nat, raws: seq<Raw>) {
    forall i | 0 <= i < |raws| :: InspectRecord(raws[i]) == Ok(seqNo + 1 + i)
  }

  /** One step of the full chain is the step of the abstract one. */
  lemma StepProjects(hash: Hash, c: ArchiveCursor, raw: Raw)
    requires c.offset + |raw| <= U64_MAX
    ensures var full := Advance(hash, c, Record(c.epoch, c.segment, c.offset + |raw|, raw));
      && full.Ok? == Advanced(Project(c), raw).Ok?
      && (full.Ok? ==> Project(full.value) == Advanced(Project(c), raw).value)
      && (full.Ok? ==> full.value.epoch == c.epoch && full.value.segment == c.segment)
  {
    hide InspectRecord, Hashed;
  }

  lemma {:induction false} PlacedWalks(hash: Hash, at: ArchiveCursor, raws: seq<Raw>)
    requires at.offset + RawBytes(raws) <= U64_MAX && Numbered(at.seqNo, raws)
    ensures Walk(hash, at, Placed(at, raws)).Ok?
    ensures var end := Walk(hash, at, Placed(at, raws)).value;
      && Project(end) == Cursor(at.seqNo + |raws|, at.offset + RawBytes(raws))
      && end.epoch == at.epoch && end.segment == at.segment
    decreases |raws|
  {
    hide InspectRecord, Advance;
    if raws != [] {
      var n := |raws| - 1;
      PlacedWalks(hash, at, raws[..n]);
      var c := Walk(hash, at, Placed(at, raws[..n])).value;
      Sequences.Unsnoc(Placed(at, raws[..n]), Placed(at, raws)[n]);
      StepProjects(hash, c, raws[n]);
      assert InspectRecord(raws[n]) == Ok(at.seqNo + 1 + n);
    }
  }

  /** The bytes of an exported chunk are as many as the export counted against its budget. */
  lemma {:induction false} PlacedBytes(at: ArchiveCursor, raws: seq<Raw>)
    requires at.offset + RawBytes(raws) <= U64_MAX && Numbered(at.seqNo, raws)
    ensures AllStorable(Placed(at, raws))
    ensures EXPORT_HEADER + |Stream(Placed(at, raws))| == ChunkBytes(raws)
    decreases |raws|
  {
    hide InspectRecord, RecordBytes;
    if raws != [] {
      var n := |raws| - 1;
      PlacedBytes(at, raws[..n]);
      var r := Record(at.epoch, at.segment, at.offset + RawBytes(raws), raws[n]);
      assert InspectRecord(raws[n]) == Ok(at.seqNo + 1 + n);
      ArchiveFormat.RecordNonEmpty(raws[n]);
      RecordLength(r);
      StreamSnoc(Placed(at, raws[..n]), r);
    }
  }

  /** A chunk as it is stored by a reader that stands at a full cursor. */
  predicate Stores(hash: Hash, c: Chunk, at: ArchiveCursor, k: ExportChunk) {
    && Project(at) == c.start && k.start == at && Project(k.end) == c.end && SameHistory(at, k.end)
    && at.offset + RawBytes(c.records) <= U64_MAX && Holds(hash, k, Placed(at, c.records))
  }

  /**
   What the log exports can be stored and read again: the bytes are accepted as the
   chunk of exactly these records, and are as long as the export's budget allowed for.
   */
  lemma ExportReads(hash: Hash, w: World, d: Id, index: Option<ExportIndex>, after: Cursor, maxBytes: nat, c: Chunk,
                    at: ArchiveCursor) returns (k: ExportChunk)
    requires MayRetire(w, d) && RecordBoundary(w, d, after) && RecordBoundary(w, d, c.end)
    requires ChunkFrom(w, d, index, after, maxBytes, c)
    requires InBudget(maxBytes) && Legal(at) && Project(at) == after
    ensures Stores(hash, c, at, k) && Reads(hash, ToBytes(k), k)
    ensures |ToBytes(k)| == ChunkBytes(c.records) <= maxBytes
  {
    hide InspectRecord, Advance, CursorBytes, Walk, MayRetire, RecordBoundary, ChunkFrom, ChunkBytes, RawBytes, Placed;
    DurableRecords(w, d, index, after, maxBytes, c);
    PlacedWalks(hash, at, c.records);
    PlacedBytes(at, c.records);
    var rs := Placed(at, c.records);
    WalkLegal(hash, at, rs);
    WalkIff(hash, at, rs);
    k := ExportChunk(at, Walk(hash, at, rs).value, Stream(rs));
    CursorLength(at);
    CursorLength(k.end);
    assert Holds(hash, k, rs);
  }

  // Exported records are numbered from the cursor on, and their end can be represented.
  lemma DurableRecords(w: World, d: Id, index: Option<ExportIndex>, after: Cursor, maxBytes: nat, c: Chunk)
    requires MayRetire(w, d) && RecordBoundary(w, d, after) && RecordBoundary(w, d, c.end)
    requires ChunkFrom(w, d, index, after, maxBytes, c)
    ensures c.start == after && c.end.seqNo == after.seqNo + |c.records| && Numbered(after.seqNo, c.records)
    ensures after.offset + RawBytes(c.records) == c.end.offset <= U64_MAX
    ensures ChunkBytes(c.records) <= maxBytes
  {
    hide OnDisk, InMemory, DurableOf, InspectRecord, RawBytes, ChunkBytes, Reach, Keep;
    ArchiveFacts(w, d);
    NeededRecords(w, d);
    ArchiveBounds(w, d);
    var released, accepted := w.mem.members[d].archive.value.released, w.past.accepted[d];
    assert CursorFits(released, accepted);
    CursorShift(released, accepted, after.seqNo, c.end.seqNo);
    CursorShift(released, accepted, c.end.seqNo, |accepted|);
    forall i | 0 <= i < |c.records| ensures InspectRecord(c.records[i]) == Ok(after.seqNo + 1 + i) {
      assert c.records[i] == accepted[after.seqNo + i];
    }
  }
}
