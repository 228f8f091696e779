/**
 Exporting a member's durable history above its archive release, chunk by chunk.
 */
module LogExport {
  import opened Prelude
  import opened FrameFormat
  import opened FrameRun
  import opened LogLayout
  import opened LogState
  import opened ThreadLaws
  import opened LogMembers
  import opened LogSeal
  import opened LogCrash
  import opened LogRuns
  import opened LogScanLaws
  import opened LogReplay
  import opened LogReopen
  import opened LogPush
  import Sequences

  const EXPORT_HEADER: nat := 248
  const RECORD_OVERHEAD: nat := 28
  const MAX_EXPORT_BYTES: nat := 4_194_304

  /** Records in sequence from one cursor to another. */
  datatype Chunk = Chunk(start: Cursor, end: Cursor, records: seq<Raw>)

  /** What a reader remembers between exports: positions of the records it still has to deliver, newest first. */
  datatype ExportIndex = ExportIndex(cursor: Cursor, end: Cursor, remaining: nat, scratch: seq<Pointer>)

  function ChunkBytes(records: seq<Raw>): nat {
    if records == [] then EXPORT_HEADER else ChunkBytes(records[..|records| - 1]) + |Last(records)| + RECORD_OVERHEAD
  }

  // ------------------------------------------------------------------ cursors

  /** Whether a cursor is at or past another one; contradictory positions are refused. */
  function Covers(a: Cursor, b: Cursor): Result<bool> {
    if a.seqNo == b.seqNo then (if a != b then Err(Invalid) else Ok(true))
    else if a.seqNo < b.seqNo then Ok(false)
    else if a.offset <= b.offset then Err(Invalid) else Ok(true)
  }

  /** The cursor after one more record, which must be the next one. */
  function Advanced(c: Cursor, raw: Raw): Result<Cursor> {
    var seqNo :- InspectRecord(raw);
    if c.seqNo + 1 != seqNo || c.offset + |raw| > U64_MAX then Err(Corruption) else Ok(Advance(c, raw))
  }

  /** Along one chain, cursors are ordered exactly as sequence numbers are. */
  lemma CoversOnChain(released: Cursor, accepted: seq<Raw>, s: nat, t: nat)
    requires released.seqNo <= s <= |accepted| && released.seqNo <= t <= |accepted|
    requires forall i | released.seqNo <= i < s || released.seqNo <= i < t :: |accepted[i]| > 0
    ensures Covers(CursorAt(released, accepted, s), CursorAt(released, accepted, t)) == Ok(s >= t)
  {
    hide RawBytes;
    if s < t { OffsetsIncrease(released, accepted, s, t); }
    if t < s { OffsetsIncrease(released, accepted, t, s); }
  }

  lemma {:induction false} OffsetsIncrease(released: Cursor, accepted: seq<Raw>, s: nat, t: nat)
    requires released.seqNo <= s < t <= |accepted| && forall i | released.seqNo <= i < t :: |accepted[i]| > 0
    ensures CursorAt(released, accepted, s).offset < CursorAt(released, accepted, t).offset
    decreases t
  {
    RawNext(released, accepted, t);
    if s < t - 1 { OffsetsIncrease(released, accepted, s, t - 1); }
  }

  // ---------------------------------------------------------- durable frames

  // A durable frame of this number lies here.
  predicate Located(frames: seq<Placed>, seqNo: nat, at: Pointer) {
    exists p :: p in frames && p.frame.seqNo == seqNo && p.at == at
  }

  /** Every durable frame can be read where it lies, and carries the accepted record. */
  lemma FrameReads(w: World, d: Id, p: Placed)
    requires OnDisk(w) && d in w.past.accepted && p in FramesOf(w, d)
    ensures ReadFrame(w.disk.files, p.at) == Ok(p.frame) && p.frame.id == d && LegalFrame(p.frame)
    ensures 1 <= p.frame.seqNo <= |w.past.accepted[d]| && p.frame.raw == w.past.accepted[d][p.frame.seqNo - 1]
  {
    hide Live, Of, ReadFrame, FilesOk, BoundariesOk, StableOk, SegsOk, RegistryOk, AllRegistered, Thread, DurableSeq,
         FramesOf, CursorFits, LegalFrame;
    FramesAre(w, d, p);
    StableReads(w.owner, w.disk.files, w.past.segs, w.disk.stable, w.past.safe, p);
    LiveLegal(w.past.segs, p);
    OfMembers(Live(w.past.segs), d, p);
    assert Stored(Of(Live(w.past.segs), d), d, w.disk.ledger, w.past.accepted, w.past.safe);
  }

  lemma LiveLegal(segs: seq<Seg>, p: Placed)
    requires SegsOk(segs) && p in Live(segs)
    ensures LegalFrame(p.frame)
  {
    hide Live, Size, LegalFrame, Unfinished;
    var i, k := LiveIndex(segs, p);
    assert InPlace(segs, i);
  }

  /** Every durable sequence number that is still needed has its frame in the log. */
  lemma FrameExists(w: World, d: Id, n: nat)
    requires OnDisk(w) && d in w.past.accepted && d in w.disk.ledger.manifests
    requires Keep(w.disk.ledger, d) < n <= DurableOf(w, d)
    ensures exists p :: p in FramesOf(w, d) && p.frame.seqNo == n
  {
    hide Layout, Live, Of, RegistryOk, AllRegistered, Until, CursorFits, Keep;
    assert Stored(Of(Live(w.past.segs), d), d, w.disk.ledger, w.past.accepted, w.past.safe);
    ThreadHas(Of(Live(w.past.segs), d), w.past.accepted[d], |w.disk.ledger.manifests[d]|, Keep(w.disk.ledger, d),
              w.past.safe, n);
  }

  lemma ThreadHas(t: seq<Placed>, accepted: seq<Raw>, checkpoint: nat, keep: nat, safe: nat, n: nat)
    requires Thread(t) && Carries(t, accepted, checkpoint, keep, safe) && keep < n <= DurableSeq(t, checkpoint, safe)
    ensures exists p :: p in Until(t, safe) && p.frame.seqNo == n
  {
    UntilIndex(t, safe);
    if Until(t, safe) == [] {
      NothingDurable(t, accepted, checkpoint, keep, safe);
    } else {
      var u := Until(t, safe);
      hide Until;
      ThreadTake(t, |u|);
      ThreadNumbers(u, 0, |u| - 1);
      var i := n - u[0].frame.seqNo;
      assert t[0] == u[0];
      ThreadNumbers(u, 0, i);
      assert u[i] in u;
    }
  }

  // Nothing durable in the live log means nothing above the checkpoint is.
  lemma NothingDurable(t: seq<Placed>, accepted: seq<Raw>, checkpoint: nat, keep: nat, safe: nat)
    requires Thread(t) && Carries(t, accepted, checkpoint, keep, safe) && Until(t, safe) == []
    ensures DurableSeq(t, checkpoint, safe) == keep == checkpoint
  {
    UntilExact(t, safe);
    if t != [] { assert t[0] in t; }
  }

  // Records that an archive still needs are not empty.
  lemma NeededRecords(w: World, d: Id)
    requires OnDisk(w) && d in w.past.accepted && d in w.disk.ledger.archives && d in w.disk.ledger.manifests
    ensures w.disk.ledger.archives[d].released.seqNo <= DurableOf(w, d) <= |w.past.accepted[d]|
    ensures forall i | w.disk.ledger.archives[d].released.seqNo <= i < DurableOf(w, d) ::
      |w.past.accepted[d][i]| > 0 && InspectRecord(w.past.accepted[d][i]) == Ok(i + 1)
  {
    hide OnDisk, DurableOf, FramesOf, ReadFrame, InspectRecord;
    ArchiveBounds(w, d);
    forall i | w.disk.ledger.archives[d].released.seqNo <= i < DurableOf(w, d)
      ensures |w.past.accepted[d][i]| > 0 && InspectRecord(w.past.accepted[d][i]) == Ok(i + 1)
    {
      FrameExists(w, d, i + 1);
      var p :| p in FramesOf(w, d) && p.frame.seqNo == i + 1;
      FrameReads(w, d, p);
      RecordNonEmpty(p.frame.raw);
    }
  }

  lemma RecordNonEmpty(raw: Raw)
    ensures InspectRecord(raw).Ok? ==> |raw| > 0
  {
    hide ReadU32, ReadU64, RecordCrc;
  }

  lemma ArchiveBounds(w: World, d: Id)
    requires OnDisk(w) && d in w.past.accepted && d in w.disk.ledger.archives && d in w.disk.ledger.manifests
    ensures Keep(w.disk.ledger, d) <= w.disk.ledger.archives[d].released.seqNo
    ensures w.disk.ledger.archives[d].released.seqNo <= DurableOf(w, d) <= |w.past.accepted[d]|
    ensures CursorFits(w.disk.ledger.archives[d].released, w.past.accepted[d])
  {
    hide Layout, Live, Of, RegistryOk, AllRegistered, Until, DurableSeq, Thread, Carries, CursorFits;
    var t := Of(Live(w.past.segs), d);
    assert Stored(t, d, w.disk.ledger, w.past.accepted, w.past.safe);
    DurableBounds(t, w.past.accepted[d], |w.disk.ledger.manifests[d]|, Keep(w.disk.ledger, d), w.past.safe,
                  w.past.safe);
  }

  /** The positions above a floor, newest first, are those of the frames in turn. */
  lemma {:induction false} AboveLocates(t: seq<Placed>, floor: nat)
    requires Thread(t) && (t != [] ==> t[0].frame.seqNo <= floor + 1)
    ensures var ps, end := Positions(Above(t, floor)), LastSeq(t, floor);
      && |ps| == (if end <= floor then 0 else end - floor)
      && forall k | 0 <= k < |ps| :: Located(t, end - k, ps[k])
    decreases |t|
  {
    hide Above, Positions, Thread;
    if t == [] || Last(t).frame.seqNo <= floor {
      AboveNone(t, floor);
    } else {
      var n := |t| - 1;
      AboveStep(t, floor);
      var rest, ps := Positions(Above(t[..n], floor)), Positions(Above(t, floor));
      assert t[n] in t;
      if n > 0 {
        ThreadTake(t, n);
        ThreadNumbers(t, n - 1, n);
        AboveLocates(t[..n], floor);
      } else {
        AboveNone(t[..n], floor);
      }
      forall k | 0 <= k < |ps| ensures Located(t, Last(t).frame.seqNo - k, ps[k]) {
        if k > 0 { LocatedMore(t[..n], t, Last(t).frame.seqNo - k, rest[k - 1]); }
      }
    }
  }

  lemma AboveNone(t: seq<Placed>, floor: nat)
    requires t == [] || Last(t).frame.seqNo <= floor
    ensures Positions(Above(t, floor)) == []
  {
  }

  lemma LocatedMore(a: seq<Placed>, b: seq<Placed>, seqNo: nat, at: Pointer)
    requires Located(a, seqNo, at) && forall p | p in a :: p in b
    ensures Located(b, seqNo, at)
  {
  }

  /** The backward walk from the reported position down to a floor finds every durable frame above it. */
  lemma DurableWalk(w: World, d: Id, floor: nat) returns (ps: seq<Pointer>)
    requires MayRetire(w, d) && d in w.past.accepted && d in w.disk.ledger.manifests
    requires Keep(w.disk.ledger, d) <= floor < ReportedSeq(w.mem.members[d], w.mem.durable)
    ensures var end := ReportedSeq(w.mem.members[d], w.mem.durable);
      && end == DurableOf(w, d)
      && Backward(w.disk.files, d, ReportedPointer(w.mem.members[d], w.mem.durable), end, floor) == Ok(ps)
      && |ps| == end - floor && forall k | 0 <= k < |ps| :: Located(FramesOf(w, d), end - k, ps[k])
  {
    hide Layout, Threads, Accounts, Active, Members, Tails, Live, Of, Backward, Positions, Above, Legible, Here,
         DurableSeq, Until, ArchiveAgrees, Below, CursorFits, Located;
    MemberReady(w, d);
    var t := Of(Live(w.past.segs), d);
    var m, sealed, keep := w.mem.members[d], |w.disk.ledger.manifests[d]|, Keep(w.disk.ledger, d);
    ReportExact(t, d, m, w.disk.ledger, w.past.accepted, w.mem.durable, Here(Last(w.past.segs)));
    DurableBounds(t, w.past.accepted[d], sealed, keep, w.past.safe, w.past.safe);
    var u := Until(t, w.past.safe);
    UntilThread(t, w.past.accepted[d], sealed, keep, w.past.safe, floor);
    ReplaySomewhere(w);
    UntilLegible(w, d);
    BackwardExact(w.disk.files, d, u, floor);
    AboveLocates(u, floor);
    ps := Positions(Above(u, floor));
  }

  lemma UntilThread(t: seq<Placed>, accepted: seq<Raw>, checkpoint: nat, keep: nat, safe: nat, floor: nat)
    requires Thread(t) && Carries(t, accepted, checkpoint, keep, safe)
    requires keep <= floor < DurableSeq(t, checkpoint, safe)
    ensures Until(t, safe) != [] && Thread(Until(t, safe)) && Until(t, safe)[0].frame.seqNo <= floor + 1
    ensures Last(Until(t, safe)).frame.seqNo == DurableSeq(t, checkpoint, safe)
  {
    if Until(t, safe) == [] { NothingDurable(t, accepted, checkpoint, keep, safe); }
    UntilIndex(t, safe);
    ThreadTake(t, |Until(t, safe)|);
    hide Until;
  }

  lemma UntilLegible(w: World, d: Id)
    requires MayRetire(w, d) && Somewhere(Live(w.past.segs))
    ensures Legible(w.disk.files, Until(Of(Live(w.past.segs), d), w.past.safe))
    ensures forall p | p in Until(Of(Live(w.past.segs), d), w.past.safe) :: p.frame.id == d
  {
    hide Threads, Accounts, Active, Members, Tails, Live, Of, ReadFrame, Known, FilesOk, SegsOk, StableOk, BoundariesOk,
         Carries, DurableSeq, Here, Until;
    MemberReady(w, d);
    var t := Of(Live(w.past.segs), d);
    UntilExact(t, w.past.safe);
    UntilIndex(t, w.past.safe);
    forall p | p in Until(t, w.past.safe)
      ensures ReadFrame(w.disk.files, p.at) == Ok(p.frame) && p.at != NOWHERE && p.frame.id == d
    {
      var i :| 0 <= i < |Until(t, w.past.safe)| && Until(t, w.past.safe)[i] == p;
      assert t[i] == p && p in t;
      OfMembers(Live(w.past.segs), d, p);
      StableReads(w.owner, w.disk.files, w.past.segs, w.disk.stable, w.past.safe, p);
    }
  }

  /** What a protected member's books say about its chain. */
  lemma ArchiveFacts(w: World, d: Id)
    requires MayRetire(w, d) && w.mem.members[d].archive.Some?
    ensures d in w.past.accepted && d in w.disk.ledger.manifests && d in w.disk.ledger.archives
    ensures var m := w.mem.members[d];
      var released := m.archive.value.released;
      && w.disk.ledger.archives[d].released == released
      && Keep(w.disk.ledger, d) <= released.seqNo <= ReportedSeq(m, w.mem.durable) <= |w.past.accepted[d]|
      && ReportedSeq(m, w.mem.durable) == DurableOf(w, d)
      && ReportedCursor(m, w.mem.durable) == CursorAt(released, w.past.accepted[d], ReportedSeq(m, w.mem.durable))
  {
    hide Layout, Active, Accounts, Threads, Members, Tails, Live, Of, Here, DurableSeq, Thread, Carries, CursorAt,
         Until, CursorFits;
    MemberReady(w, d);
    ReportExact(Of(Live(w.past.segs), d), d, w.mem.members[d], w.disk.ledger, w.past.accepted, w.mem.durable,
                Here(Last(w.past.segs)));
  }

  // The durable end of a protected member's chain.
  function ReportedCursor(m: Member, durable: nat): Cursor
    requires m.archive.Some?
  {
    if m.lsn <= durable then m.archive.value.latest else m.archive.value.durable
  }

  // ------------------------------------------------------------- the index

  /** Where the chain allows it, a cursor of a member is one of its durable record boundaries. */
  predicate OnChain(l: Logs, d: Id, c: Cursor)
    requires d in l.accepted && d in l.released && d in l.durable
  {
    l.released[d].seqNo <= c.seqNo ==>
      c.seqNo <= l.durable[d] && c.seqNo <= |l.accepted[d]| && c == CursorAt(l.released[d], l.accepted[d], c.seqNo)
  }

  /** An index agrees with the log: its cursors are on the chain, its positions hold the records between them. */
  predicate IndexOk(l: Logs, d: Id, x: ExportIndex) {
    && d in l.accepted && d in l.released && d in l.durable && d in l.frames
    && x.cursor.seqNo + x.remaining == x.end.seqNo && x.remaining <= |x.scratch|
    && OnChain(l, d, x.cursor) && OnChain(l, d, x.end)
    && forall k | 0 <= k < x.remaining && l.released[d].seqNo < x.end.seqNo - k ::
      Located(l.frames[d], x.end.seqNo - k, x.scratch[k])
  }

  lemma SharedSlice(early: seq<Raw>, late: seq<Raw>, n: nat, i: nat, j: nat)
    requires i <= j <= n <= |early| && early[..n] <= late
    ensures early[i..j] == late[i..j]
  {
    assert late == early[..n] + late[n..];
    Sequences.InFirst(early[..n], late[n..], i, j);
    assert early[..n][i..j] == early[i..j];
  }

  lemma OnChainSurvives(a: Logs, b: Logs, d: Id, c: Cursor)
    requires d in a.accepted && d in a.released && Sound(a) && Sound(b) && d in b.accepted && Survives(a, b, d)
    requires OnChain(a, d, c)
    ensures d in b.released && OnChain(b, d, c) && a.released[d].seqNo <= b.released[d].seqNo
  {
    hide RawBytes;
    var r, q := a.released[d], b.released[d];
    var early, late := a.accepted[d], b.accepted[d];
    FollowsOn(r, q, late);
    if q.seqNo <= c.seqNo {
      SharedSlice(early, late, a.durable[d], r.seqNo, c.seqNo);
      if r != q { CursorShift(r, late, q.seqNo, c.seqNo); }
    }
  }

  /**
   A cached index outlives whatever else happens to the log: appends, rolls, syncs, seals,
   releases and reclaiming leave every position that it still may deliver readable.
   */
  lemma IndexSurvives(a: Logs, b: Logs, d: Id, x: ExportIndex)
    requires Sound(a) && Sound(b) && d in b.accepted && Survives(a, b, d) && IndexOk(a, d, x)
    ensures IndexOk(b, d, x)
  {
    hide Sound, OnChain, Follows;
    SoundKeys(a);
    SoundKeys(b);
    OnChainSurvives(a, b, d, x.cursor);
    OnChainSurvives(a, b, d, x.end);
    forall k | 0 <= k < x.remaining && b.released[d].seqNo < x.end.seqNo - k
      ensures Located(b.frames[d], x.end.seqNo - k, x.scratch[k])
    {
      assert Located(a.frames[d], x.end.seqNo - k, x.scratch[k]);
      var p :| p in a.frames[d] && p.frame.seqNo == x.end.seqNo - k && p.at == x.scratch[k];
      assert p in b.frames[d];
    }
  }

  lemma SoundKeys(a: Logs)
    requires Sound(a)
    ensures a.durable.Keys == a.accepted.Keys && a.frames.Keys == a.accepted.Keys
    ensures forall d | d in a.accepted :: a.durable[d] <= |a.accepted[d]|
  {
  }

  // ------------------------------------------------------------------ chunks

  /** What one export must answer: the next records up to `limit`, as many as the budget holds. */
  predicate Exported(c: Chunk, released: Cursor, accepted: seq<Raw>, limit: nat, after: Cursor, budget: nat) {
    && released.seqNo <= after.seqNo <= c.end.seqNo <= limit <= |accepted|
    && c.start == after && c.records == accepted[after.seqNo..c.end.seqNo]
    && c.end == CursorAt(released, accepted, c.end.seqNo)
    && ChunkBytes(c.records) <= budget
    && (c.end.seqNo < limit ==> ChunkBytes(c.records + [accepted[c.end.seqNo]]) > budget)
    && (after.seqNo < limit ==> c.records != [])
  }

  predicate Chained(chunks: seq<Chunk>) { forall i | 0 < i < |chunks| :: chunks[i].start == chunks[i - 1].end }

  function AllRecords(chunks: seq<Chunk>): seq<Raw> {
    if chunks == [] then [] else AllRecords(chunks[..|chunks| - 1]) + Last(chunks).records
  }

  // Each chunk was exported from a history that the last one extends.
  predicate ExportedFrom(chunks: seq<Chunk>, history: seq<Raw>) {
    forall i | 0 <= i < |chunks| ::
      chunks[i].start.seqNo <= chunks[i].end.seqNo <= |history|
        && chunks[i].records == history[chunks[i].start.seqNo..chunks[i].end.seqNo]
  }

  /** Chained exports partition the history: no record is lost, repeated or reordered. */
  lemma {:induction false} ExportsPartition(chunks: seq<Chunk>, history: seq<Raw>)
    requires chunks != [] && Chained(chunks) && ExportedFrom(chunks, history)
    ensures chunks[0].start.seqNo <= Last(chunks).end.seqNo <= |history|
    ensures AllRecords(chunks) == history[chunks[0].start.seqNo..Last(chunks).end.seqNo]
    decreases |chunks|
  {
    var n := |chunks| - 1;
    if n > 0 {
      assert chunks[n].start == chunks[n - 1].end;
      assert Last(chunks[..n]) == chunks[n - 1] && chunks[..n][0] == chunks[0];
      forall i | 0 < i < n
        ensures chunks[..n][i].start == chunks[..n][i - 1].end
      {
        assert chunks[i].start == chunks[i - 1].end;
      }
      ExportsPartition(chunks[..n], history);
      assert history[chunks[0].start.seqNo..chunks[n].end.seqNo] ==
             history[chunks[0].start.seqNo..chunks[n].start.seqNo]
             + history[chunks[n].start.seqNo..chunks[n].end.seqNo];
    } else {
      assert chunks[..0] == [] && AllRecords([]) == [];
      Sequences.Neutral(chunks[0].records);
    }
  }

  // A chunk of a member's durable records, as exported in some state.
  predicate DurableChunk(l: Logs, d: Id, c: Chunk) {
    && d in l.accepted && d in l.durable && c.start.seqNo <= c.end.seqNo <= l.durable[d] <= |l.accepted[d]|
    && c.records == l.accepted[d][c.start.seqNo..c.end.seqNo]
  }

  lemma ChunkSurvives(a: Logs, b: Logs, d: Id, c: Chunk)
    requires DurableChunk(a, d, c) && Survives(a, b, d) && d in b.accepted && d in b.durable
    ensures DurableChunk(b, d, c)
  {
    hide Retains;
    assert a.accepted[d][c.start.seqNo..c.end.seqNo] == a.accepted[d][..a.durable[d]][c.start.seqNo..c.end.seqNo];
    assert b.accepted[d][c.start.seqNo..c.end.seqNo] == a.accepted[d][..a.durable[d]][c.start.seqNo..c.end.seqNo];
  }

  lemma ChunkSnoc(records: seq<Raw>, raw: Raw)
    ensures ChunkBytes(records + [raw]) == ChunkBytes(records) + |raw| + RECORD_OVERHEAD
  {
    Sequences.Unsnoc(records, raw);
  }

  lemma ChunkEmpty()
    ensures ChunkBytes([]) == EXPORT_HEADER
  {
  }

  lemma SliceSnoc<T>(a: seq<T>, i: nat, j: nat)
    requires i <= j < |a|
    ensures a[i..j + 1] == a[i..j] + [a[j]]
  {
  }
}
