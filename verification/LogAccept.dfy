/** When an append is accepted, and the state it leaves. */
module LogAccept {
  import opened Prelude
  import opened FrameFormat
  import opened LogLayout
  import opened LogState
  import opened LogWrites
  import opened LogRoll
  import opened LogPush
  import opened LogReclaim
  import opened LogArchive

  // A full reclaiming pass.
  function Swept(w: World): World {
    var k := ReclaimCount(w.mem.members, w.mem.segments, w.mem.segment);
    if k <= |w.past.segs| == |w.disk.files| == |w.mem.segments| && Storage(w.past.segs[..k]) <= w.mem.storage
      && Charges(w.past.segs[..k]) <= w.mem.charged
    then Reclaimed(w, k) else w
  }

  /** A reclaiming pass keeps the invariant and goes as far as it can. */
  lemma SweptKeeps(w: World)
    requires Healthy(w)
    ensures Healthy(Swept(w))
    ensures MayReclaim(w, ReclaimCount(w.mem.members, w.mem.segments, w.mem.segment))
    ensures var k := ReclaimCount(w.mem.members, w.mem.segments, w.mem.segment);
            && k <= |w.past.segs| == |w.disk.files| == |w.mem.segments|
            && Storage(w.past.segs[..k]) <= w.mem.storage && Charges(w.past.segs[..k]) <= w.mem.charged
            && Swept(w) == Reclaimed(w, k)
  {
    hide Healthy, Reclaimed, ReclaimCount, Storage, Charges;
    ReclaimStops(w);
    ReclaimKeeps(w, ReclaimCount(w.mem.members, w.mem.segments, w.mem.segment));
  }

  /** It stops only at the active segment or at one that a member still needs. */
  lemma SweptStops(w: World)
    requires Healthy(w)
    ensures Swept(w).mem.segments != []
    ensures var s := Swept(w).mem.segments[0];
            s.number == w.mem.segment || exists d | d in s.members ::
              d !in w.mem.members || !Releasable(w.mem.members[d], s.members[d])
  {
    hide Healthy, Storage, Charges, Numbers, Releasable;
    SweptKeeps(w);
  }

  predicate Rolls(w: World, length: nat) { w.mem.offset + length > w.options.segmentBytes }

  function GrowthOf(w: World, length: nat): nat { length + (if Rolls(w, length) then SEGMENT_HEADER else 0) }

  function IndexGrowthOf(w: World, d: Id, length: nat): nat {
    (if Rolls(w, length) then SEGMENT_CHARGE else 0)
    + (if Rolls(w, length) || w.mem.segments == [] || d !in Last(w.mem.segments).members then ENTRY_CHARGE else 0)
  }

  // Reclaiming happens only when the frame would not fit.
  function Trimmed(w: World, growth: nat): World {
    if w.mem.storage + growth > w.options.maxBytes then Swept(w) else w
  }

  function FrameFor(w: World, d: Id, seqNo: nat, raw: Raw): Frame
    requires d in w.mem.members
  {
    Frame(d, w.mem.lsn + 1, seqNo, w.mem.members[d].latest, raw)
  }

  predicate QuotaAllows(m: Member, raw: Raw) {
    match m.archive
    case None => true
    case Some(p) => PinnedBytes(p) + |raw| + FRAME_HEADER <= p.maxBytes && p.latest.offset + |raw| <= U64_MAX
  }

  /** The conditions, in terms of the state before, under which a record is accepted. */
  predicate Accepts(w: World, d: Id, seqNo: nat, raw: Raw) {
    var length := FRAME_HEADER + |raw|;
    && d in w.mem.members && w.mem.members[d].seqNo + 1 == seqNo && QuotaAllows(w.mem.members[d], raw)
    && w.mem.lsn < U64_MAX
    && length <= w.options.bufferBytes && SEGMENT_HEADER + length <= w.options.segmentBytes
    && Trimmed(w, GrowthOf(w, length)).mem.storage + GrowthOf(w, length) <= w.options.maxBytes
    && Trimmed(w, GrowthOf(w, length)).mem.charged + IndexGrowthOf(w, d, length) <= w.options.indexBytes
  }

  // A new segment, when the frame needs one.
  function Rolled(w: World, length: nat): World {
    if !Rolls(w, length) || w.disk.files == [] || w.past.segs == [] then w else Created(Synced(Flushed(w)))
  }

  // Room in the buffer.
  function Spilled(w: World, length: nat): World {
    if w.disk.files != [] && |w.mem.buffer| + length > w.options.bufferBytes then Flushed(w) else w
  }

  function Prepared(w: World, length: nat): World {
    Spilled(Rolled(Trimmed(w, GrowthOf(w, length)), length), length)
  }

  function Appended(w: World, d: Id, seqNo: nat, raw: Raw): World {
    var v := Prepared(w, FRAME_HEADER + |raw|);
    if v.past.segs != [] && v.mem.segments != [] && d in w.mem.members && d in v.mem.members && d in v.past.accepted
    then Pushed(v, FrameFor(w, d, seqNo, raw)) else v
  }

  lemma SweptFields(w: World)
    requires Healthy(w)
    ensures var v := Swept(w);
      && v.options == w.options && v.owner == w.owner && v.mem.members == w.mem.members && v.mem.lsn == w.mem.lsn
      && v.mem.offset == w.mem.offset
      && v.mem.segment == w.mem.segment && v.mem.buffer == w.mem.buffer && v.mem.durable == w.mem.durable
      && v.mem.tails == w.mem.tails
      && v.past.accepted == w.past.accepted && v.disk.ledger == w.disk.ledger
      && v.mem.storage <= w.mem.storage && v.mem.charged <= w.mem.charged
      && v.mem.segments != [] && w.mem.segments != [] && Last(v.mem.segments) == Last(w.mem.segments)
  {
    hide Healthy, Storage, Charges, Numbers, ReclaimCount;
    SweptKeeps(w);
  }

  // What the steps between reservation and push leave alone.
  predicate SameBooks(w: World, v: World) {
    && v.options == w.options && v.owner == w.owner && v.mem.members == w.mem.members && v.mem.lsn == w.mem.lsn
    && v.mem.tails == w.mem.tails
    && v.past.accepted == w.past.accepted && v.disk.ledger == w.disk.ledger
  }

  lemma RolledFields(w: World, length: nat)
    requires Healthy(w)
    ensures var v := Rolled(w, length);
      && SameBooks(w, v) && v.mem.segments != [] && w.mem.segments != [] && w.disk.files != [] && w.past.segs != []
      && v.mem.storage == w.mem.storage + (if Rolls(w, length) then SEGMENT_HEADER else 0)
      && v.mem.charged == w.mem.charged + (if Rolls(w, length) then SEGMENT_CHARGE else 0)
      && v.mem.offset == (if Rolls(w, length) then SEGMENT_HEADER else w.mem.offset)
      && v.mem.segment == w.mem.segment + (if Rolls(w, length) then 1 else 0)
      && Last(v.mem.segments).members == (if Rolls(w, length) then map[] else Last(w.mem.segments).members)
      && |v.mem.buffer| <= |w.mem.buffer|
  {
    hide OnDisk, Members, Tails, Content, Fenced, Storage, Charges, EncodeHeader, RegistryCharge, Next, Length;
  }

  lemma SpilledFields(w: World, length: nat)
    requires w.disk.files != [] && length <= w.options.bufferBytes
    ensures var v := Spilled(w, length);
      && SameBooks(w, v) && v.mem.segments == w.mem.segments && v.mem.storage == w.mem.storage
      && v.mem.charged == w.mem.charged
      && v.mem.offset == w.mem.offset && v.mem.segment == w.mem.segment
      && |v.mem.buffer| + length <= w.options.bufferBytes
  {
    hide WriteTo;
  }

  predicate Continuing(w: World, f: Frame) {
    && f.id in w.mem.members && !w.mem.members[f.id].retired
    && LegalFrame(f) && f.lsn == w.mem.lsn + 1
    && f.seqNo == w.mem.members[f.id].seqNo + 1 && f.previous == w.mem.members[f.id].latest
    && (w.mem.members[f.id].archive.Some? ==> w.mem.members[f.id].archive.value.latest.offset + |f.raw| <= U64_MAX)
  }

  predicate Spacious(w: World, f: Frame) {
    && FrameLength(f) <= w.options.bufferBytes
    && w.mem.storage + GrowthOf(w, FrameLength(f)) <= w.options.maxBytes
    && w.mem.charged + IndexGrowthOf(w, f.id, FrameLength(f)) <= w.options.indexBytes
  }

  /** With space reserved, rolled and spilled as needed, the frame may be pushed. */
  lemma ReservedMayPush(w: World, v: World, f: Frame)
    requires Healthy(w) && Continuing(w, f) && Spacious(w, f)
    requires v == Spilled(Rolled(w, FrameLength(f)), FrameLength(f)) && Healthy(v)
    ensures MayPush(v, f)
    ensures v.mem.charged + EntryGrowth(v.mem.segments, f.id) == w.mem.charged + IndexGrowthOf(w, f.id, FrameLength(f))
  {
    hide Healthy, LegalFrame, FrameLength, Rolled, Spilled;
    var length := FrameLength(f);
    RolledFields(w, length);
    RolledFiles(w, length);
    SpilledFields(Rolled(w, length), length);
  }

  lemma RolledFiles(w: World, length: nat)
    requires Healthy(w)
    ensures Rolled(w, length).disk.files != []
  {
    hide OnDisk, Members, Tails, Content, Fenced, Accounts, EncodeHeader;
  }

  /** The frame of an acceptable record continues its member. */
  lemma FrameContinues(w: World, d: Id, seqNo: U64, raw: Raw)
    requires Healthy(w) && d in w.mem.members && !w.mem.members[d].retired
    requires w.mem.members[d].seqNo + 1 == seqNo && QuotaAllows(w.mem.members[d], raw) && w.mem.lsn < U64_MAX
    requires InspectRecord(raw) == Ok(seqNo)
    ensures Continuing(w, FrameFor(w, d, seqNo, raw))
  {
    hide OnDisk, Active, Accounts, Tails, Live, Of, InspectRecord, DurableSeq, Until, ArchiveAgrees;
    HereEncodable(w);
    assert Known(Of(Live(w.past.segs), d), d, w.mem.members[d], w.disk.ledger, w.past.accepted, w.mem.durable,
                 Here(Last(w.past.segs)));
  }

  // Reclaiming changes nothing a frame continues.
  lemma TrimmedContinues(w: World, growth: nat, f: Frame)
    requires Healthy(w) && Continuing(w, f)
    ensures Healthy(Trimmed(w, growth)) && Continuing(Trimmed(w, growth), f) && SameBooks(w, Trimmed(w, growth))
    ensures Trimmed(w, growth).mem.offset == w.mem.offset && Trimmed(w, growth).mem.segment == w.mem.segment
    ensures Trimmed(w, growth).mem.segments != [] && w.mem.segments != []
    ensures Last(Trimmed(w, growth).mem.segments) == Last(w.mem.segments)
  {
    hide Healthy, Swept, LegalFrame;
    SweptKeeps(w);
    SweptFields(w);
  }
}
