/**
 What one export answers, in terms of the promise of the log: exactly when a reader gets a
 chunk, and which one.
 */
module LogReader {
  import opened Prelude
  import opened FrameFormat
  import opened LogLayout
  import opened LogState
  import opened LogWrites
  import opened LogCrash
  import opened LogRuns
  import opened LogMembers
  import opened LogExport
  import opened SharedWals
  import opened SharedMembers
  import Sequences

  // A member that is registered and not retired.
  predicate Current(members: map<Id, Member>, id: Id) { id in members && !members[id].retired }

  /** Where a reader stands: at the end of its last chunk, or else at the release. */
  function Standing(l: Logs, id: Id, chunks: seq<Chunk>): Option<Cursor> {
    if chunks != [] then Some(Last(chunks).end) else if id in l.released then Some(l.released[id]) else None
  }

  /** A durable record boundary at or above the release, and the budget holds the next record, if there is one. */
  predicate Deliverable(l: Logs, id: Id, from: Cursor, maxBytes: nat) {
    && InBudget(maxBytes) && id in l.accepted && id in l.released && id in l.durable
    && l.released[id].seqNo <= from.seqNo && OnChain(l, id, from)
    && (from.seqNo < l.durable[id] && from.seqNo < |l.accepted[id]| ==>
          ChunkBytes([l.accepted[id][from.seqNo]]) <= maxBytes)
  }

  /** The next durable records, as many as the budget holds up to some durable end. */
  predicate DeliversTo(l: Logs, id: Id, from: Cursor, maxBytes: nat, c: Chunk, limit: nat)
    requires id in l.accepted && id in l.released && id in l.durable
  {
    && limit <= l.durable[id] && (from.seqNo < l.durable[id] ==> from.seqNo < limit)
    && Exported(c, l.released[id], l.accepted[id], limit, from, maxBytes)
  }

  /** What an export does: it adds the chunk that it can deliver, and none where it can deliver none. */
  ghost predicate Answers(l: Logs, open: bool, id: Id, maxBytes: nat, before: seq<Chunk>, after: seq<Chunk>) {
    var from := Standing(l, id, before);
    if open && from.Some? && Deliverable(l, id, from.value, maxBytes)
    then
      && |after| == |before| + 1 && after[..|before|] == before
      && exists limit: nat :: DeliversTo(l, id, from.value, maxBytes, Last(after), limit)
    else after == before
  }

  lemma AnswersMore(l: Logs, id: Id, from: Cursor, maxBytes: nat, before: seq<Chunk>, c: Chunk, limit: nat)
    requires Standing(l, id, before) == Some(from) && Deliverable(l, id, from, maxBytes)
    requires DeliversTo(l, id, from, maxBytes, c, limit)
    ensures Answers(l, true, id, maxBytes, before, before + [c])
  {
    hide DeliversTo, OnChain, ChunkBytes;
    var after := before + [c];
    Sequences.Unsnoc(before, c);
    assert DeliversTo(l, id, from, maxBytes, Last(after), limit);
  }

  // In an open log, what is deliverable is what an export does not refuse.
  lemma DeliverableIs(w: World, id: Id, from: Cursor, maxBytes: nat)
    requires MayRetire(w, id) && w.mem.members[id].archive.Some?
    ensures var l := LogsOf(w);
      && id in l.accepted && id in l.released && id in l.durable && l.released[id] == Released(w, id)
      && (Deliverable(l, id, from, maxBytes) <==>
            InBudget(maxBytes) && RecordBoundary(w, id, from) && !TooLong(w, id, from, maxBytes))
  {
    hide MayRetire, RecordBoundary, LogsOf, DurableOf, FramesOf, OnChain, ChunkBytes;
    BoundaryOnChain(w, id, from);
    BoundaryMember(w, id, from);
  }

  function Released(w: World, id: Id): Cursor
    requires id in w.mem.members && w.mem.members[id].archive.Some?
  {
    w.mem.members[id].archive.value.released
  }

  // Without a current member or its archive, there is nothing to deliver.
  lemma NothingDeliverable(w: World, id: Id, from: Cursor, maxBytes: nat)
    requires Healthy(w) && (Current(w.mem.members, id) ==> w.mem.members[id].archive.None?)
    ensures !Deliverable(LogsOf(w), id, from, maxBytes)
  {
    hide Layout, Accounts, Tails, Live, Of, Thread, Carries, DurableSeq, Until, CursorAt, CursorFits, DurableOf,
         FramesOf, OnChain, ChunkBytes;
    if id in w.past.accepted {
      assert id in w.mem.members.Keys;
      assert Stored(Of(Live(w.past.segs), id), id, w.disk.ledger, w.past.accepted, w.past.safe);
    }
  }

  lemma DeliversIs(w: World, id: Id, index: Option<ExportIndex>, from: Cursor, maxBytes: nat, c: Chunk)
    requires MayRetire(w, id) && RecordBoundary(w, id, from) && ChunkFrom(w, id, index, from, maxBytes, c)
    requires index.Some? ==> IndexOk(LogsOf(w), id, index.value)
    ensures var l := LogsOf(w);
      && id in l.accepted && id in l.released && id in l.durable && id in w.disk.ledger.manifests
      && DeliversTo(l, id, from, maxBytes, c, Reach(w, id, index, from))
  {
    hide MayRetire, RecordBoundary, LogsOf, DurableOf, FramesOf, OnChain, Exported, IndexOk, Reach;
    BoundaryMember(w, id, from);
    BoundaryOnChain(w, id, from);
    ChunkAhead(w, id, index, from, maxBytes, c);
  }
}
