/**
 Batches: the preflight simulates rolls, storage, index and archive growth, and the
 appends that follow do exactly what it simulated.
 */
module LogBatch {
  import opened Prelude
  import opened FrameFormat
  import opened LogLayout
  import opened LogState
  import opened LogWrites
  import opened LogPush
  import opened LogArchive
  import opened LogAccept
  import Sequences

  datatype Plan = Plan(offset: nat, represented: bool, growth: nat, index: nat, pinned: nat, rolls: nat)

  function PlanStep(segmentBytes: nat, p: Plan, raw: Raw): Plan {
    var length := FRAME_HEADER + |raw|;
    var rolls := p.offset + length > segmentBytes;
    Plan((if rolls then SEGMENT_HEADER else p.offset) + length, true,
         p.growth + length + (if rolls then SEGMENT_HEADER else 0),
         p.index + (if rolls then SEGMENT_CHARGE else 0) + (if rolls || !p.represented then ENTRY_CHARGE else 0),
         p.pinned + length, p.rolls + (if rolls then 1 else 0))
  }

  function PlanOf(segmentBytes: nat, p: Plan, raws: seq<Raw>): Plan {
    if raws == [] then p else PlanStep(segmentBytes, PlanOf(segmentBytes, p, raws[..|raws| - 1]), Last(raws))
  }

  lemma PlanSnoc(segmentBytes: nat, p: Plan, raws: seq<Raw>, k: nat)
    requires k < |raws|
    ensures PlanOf(segmentBytes, p, raws[..k + 1]) == PlanStep(segmentBytes, PlanOf(segmentBytes, p, raws[..k]),
                                                               raws[k])
    ensures RawBytes(raws[..k + 1]) == RawBytes(raws[..k]) + |raws[k]|
  {
    assert raws[..k + 1][..k] == raws[..k] && Last(raws[..k + 1]) == raws[k];
  }

  lemma {:induction false} PlanGrows(segmentBytes: nat, p: Plan, raws: seq<Raw>, i: nat, j: nat)
    requires i <= j <= |raws|
    ensures var a, b := PlanOf(segmentBytes, p, raws[..i]), PlanOf(segmentBytes, p, raws[..j]);
            a.growth <= b.growth && a.index <= b.index && a.pinned <= b.pinned && a.rolls <= b.rolls
    ensures RawBytes(raws[..i]) <= RawBytes(raws[..j])
    decreases j
  {
    if i < j {
      hide PlanOf, RawBytes;
      PlanGrows(segmentBytes, p, raws, i, j - 1);
      PlanSnoc(segmentBytes, p, raws, j - 1);
    }
  }

  function StartPlan(w: World, d: Id): Plan {
    Plan(w.mem.offset, w.mem.segments != [] && d in Last(w.mem.segments).members, 0, 0, 0, 0)
  }

  function BatchPlan(w: World, d: Id, raws: seq<Raw>): Plan { PlanOf(w.options.segmentBytes, StartPlan(w, d), raws) }

  predicate FrameFits(options: Options, raw: Raw) {
    FRAME_HEADER + |raw| <= options.bufferBytes && SEGMENT_HEADER + FRAME_HEADER + |raw| <= options.segmentBytes
  }

  /** The conditions the preflight checks, in terms of the state before it. */
  predicate BatchFits(w: World, d: Id, first: nat, raws: seq<Raw>) {
    && d in w.mem.members && first == w.mem.members[d].seqNo + 1
    && first + |raws| <= U64_MAX && w.mem.lsn + |raws| <= U64_MAX
    && (forall i | 0 <= i < |raws| :: FrameFits(w.options, raws[i]))
    && (w.mem.members[d].archive.Some? ==>
          var p := w.mem.members[d].archive.value;
          PinnedBytes(p) + BatchPlan(w, d, raws).pinned <= p.maxBytes)
    && Trimmed(w, BatchPlan(w, d, raws).growth).mem.storage + BatchPlan(w, d, raws).growth <= w.options.maxBytes
    && Trimmed(w, BatchPlan(w, d, raws).growth).mem.charged + BatchPlan(w, d, raws).index <= w.options.indexBytes
  }

  /** The two counters that the preflight does not look at. */
  predicate Representable(w: World, d: Id, raws: seq<Raw>)
    requires d in w.mem.members
  {
    && (w.mem.members[d].archive.Some? ==> w.mem.members[d].archive.value.latest.offset + RawBytes(raws) <= U64_MAX)
    && w.mem.segment + BatchPlan(w, d, raws).rolls <= U64_MAX
  }

  // ------------------------------------------------------------ one append

  predicate SameArchive(a: Option<Protection>, b: Option<Protection>, pinned: nat, bytes: nat) {
    match a
    case None => b.None?
    case Some(p) =>
      && b.Some? && b.value.maxBytes == p.maxBytes && b.value.released == p.released
      && b.value.latest.offset == p.latest.offset + bytes && PinnedBytes(b.value) == PinnedBytes(p) + pinned
      && p.released.offset <= p.latest.offset && p.released.seqNo <= p.latest.seqNo
  }

  lemma ArchiveOrder(w: World, d: Id)
    requires Healthy(w) && d in w.mem.members && !w.mem.members[d].retired && w.mem.members[d].archive.Some?
    ensures var p := w.mem.members[d].archive.value;
            p.released.offset <= p.latest.offset && p.released.seqNo <= p.latest.seqNo
  {
    hide OnDisk, Active, Accounts, Tails, Live, Of, DurableSeq, Until, RawBytes, Here;
    HereEncodable(w);
    assert Known(Of(Live(w.past.segs), d), d, w.mem.members[d], w.disk.ledger, w.past.accepted, w.mem.durable,
                 Here(Last(w.past.segs)));
  }

  lemma AdvanceArchive(m: Member, p: Placed, durable: nat)
    requires m.archive.Some? ==> m.archive.value.released.offset <= m.archive.value.latest.offset
    requires m.archive.Some? ==> m.archive.value.released.seqNo <= m.archive.value.latest.seqNo
    ensures SameArchive(m.archive, Noted(m, p, durable).archive, FRAME_HEADER + |p.frame.raw|, |p.frame.raw|)
  {
  }

  /** What one append adds is one step of the plan. */
  lemma AppendedPlan(w: World, d: Id, seqNo: nat, raw: Raw)
    requires Healthy(w) && Accepts(w, d, seqNo, raw) && d in w.past.accepted && !w.mem.members[d].retired
    requires w.mem.storage + GrowthOf(w, FRAME_HEADER + |raw|) <= w.options.maxBytes
    ensures var v, s := Appended(w, d, seqNo, raw), PlanStep(w.options.segmentBytes, StartPlan(w, d), raw);
      && v.options == w.options && v.owner == w.owner && StartPlan(v, d).offset == s.offset
      && StartPlan(v, d).represented && d in v.mem.members
      && v.mem.storage == w.mem.storage + s.growth && v.mem.charged == w.mem.charged + s.index
      && v.mem.lsn == w.mem.lsn + 1 && v.mem.segment == w.mem.segment + s.rolls
      && v.mem.members[d].seqNo == seqNo && v.mem.members[d].retired == w.mem.members[d].retired
      && SameArchive(w.mem.members[d].archive, v.mem.members[d].archive, s.pinned, |raw|)
      && v.past.accepted == w.past.accepted[d := w.past.accepted[d] + [raw]]
  {
    hide Healthy, Rolled, Spilled, QuotaAllows, PinnedBytes, SameArchive, Noted, EncodeFrame, ExtendedLast;
    var length := FRAME_HEADER + |raw|;
    RolledFields(w, length);
    RolledFiles(w, length);
    SpilledFields(Rolled(w, length), length);
    ReservedSegs(w, length);
    var v := Spilled(Rolled(w, length), length);
    var f := FrameFor(w, d, seqNo, raw);
    if w.mem.members[d].archive.Some? { ArchiveOrder(w, d); }
    AdvanceArchive(w.mem.members[d], Put(v.past.segs, f), v.mem.durable);
    NotedFields(w.mem.members[d], Put(v.past.segs, f), v.mem.durable);
  }

  lemma NotedFields(m: Member, p: Placed, durable: nat)
    ensures Noted(m, p, durable).seqNo == p.frame.seqNo && Noted(m, p, durable).retired == m.retired
  {
  }

  lemma ReservedSegs(w: World, length: nat)
    requires Healthy(w)
    ensures Spilled(Rolled(w, length), length).past.segs != []
  {
    hide OnDisk, Accounts, Members, Tails, Content, Fenced, EncodeHeader, WriteTo;
  }

  // ------------------------------------------------------------ a whole batch

  // The budgets hold the whole batch without reclaiming anything more.
  predicate RoomFor(w: World, d: Id, first: nat, raws: seq<Raw>) {
    BatchFits(w, d, first, raws) && w.mem.storage + BatchPlan(w, d, raws).growth <= w.options.maxBytes
  }

  /** After i appends the log is where the plan says. */
  predicate Midway(w: World, v: World, d: Id, first: nat, raws: seq<Raw>, i: nat)
    requires i <= |raws|
  {
    var p := PlanOf(w.options.segmentBytes, StartPlan(w, d), raws[..i]);
    && v.options == w.options && d in w.mem.members && d in v.mem.members && !v.mem.members[d].retired
    && d in w.past.accepted && d in v.past.accepted
    && v.mem.members[d].seqNo + 1 == first + i && v.mem.lsn == w.mem.lsn + i
    && StartPlan(v, d).offset == p.offset && StartPlan(v, d).represented == p.represented
    && v.mem.storage == w.mem.storage + p.growth && v.mem.charged == w.mem.charged + p.index
    && v.mem.segment == w.mem.segment + p.rolls
    && SameArchive(w.mem.members[d].archive, v.mem.members[d].archive, p.pinned, RawBytes(raws[..i]))
    && v.past.accepted == w.past.accepted[d := w.past.accepted[d] + raws[..i]]
  }

  lemma MidwayStart(w: World, d: Id, first: nat, raws: seq<Raw>)
    requires Healthy(w) && d in w.mem.members && !w.mem.members[d].retired && d in w.past.accepted
    requires first == w.mem.members[d].seqNo + 1
    ensures Midway(w, w, d, first, raws, 0)
  {
    hide Healthy;
    if w.mem.members[d].archive.Some? { ArchiveOrder(w, d); }
    assert raws[..0] == [];
    Sequences.Neutral(w.past.accepted[d]);
    assert w.past.accepted[d := w.past.accepted[d]] == w.past.accepted;
  }

  // The plan of the next record starts where the log is.
  lemma NextPlan(w: World, v: World, d: Id, first: nat, raws: seq<Raw>, i: nat)
    requires i < |raws| && Midway(w, v, d, first, raws, i)
    ensures var s := PlanStep(w.options.segmentBytes, StartPlan(v, d), raws[i]);
            var q := PlanOf(w.options.segmentBytes, StartPlan(w, d), raws[..i + 1]);
            var p := PlanOf(w.options.segmentBytes, StartPlan(w, d), raws[..i]);
            && s.offset == q.offset && q.represented
            && p.growth + s.growth == q.growth && p.index + s.index == q.index && p.pinned + s.pinned == q.pinned
            && p.rolls + s.rolls == q.rolls
    ensures PlanStep(w.options.segmentBytes, StartPlan(v, d), raws[i]).growth == GrowthOf(v, FRAME_HEADER + |raws[i]|)
    ensures v.mem.segments != [] ==>
      PlanStep(w.options.segmentBytes, StartPlan(v, d), raws[i]).index == IndexGrowthOf(v, d, FRAME_HEADER + |raws[i]|)
  {
    hide PlanOf, SameArchive, RawBytes;
    PlanSnoc(w.options.segmentBytes, StartPlan(w, d), raws, i);
  }

  lemma PlanBounds(w: World, d: Id, raws: seq<Raw>, i: nat)
    requires i < |raws|
    ensures var a, b := PlanOf(w.options.segmentBytes, StartPlan(w, d), raws[..i + 1]), BatchPlan(w, d, raws);
            a.growth <= b.growth && a.index <= b.index && a.pinned <= b.pinned && a.rolls <= b.rolls
    ensures RawBytes(raws[..i + 1]) <= RawBytes(raws)
  {
    hide PlanOf, RawBytes;
    PlanGrows(w.options.segmentBytes, StartPlan(w, d), raws, i + 1, |raws|);
    Sequences.Neutral(raws);
  }

  /** In a batch with room for it, a record is refused only for the archive offset. */
  lemma MidwayAccepts(w: World, v: World, d: Id, first: nat, raws: seq<Raw>, i: nat)
    requires i < |raws| && Midway(w, v, d, first, raws, i) && Healthy(v) && RoomFor(w, d, first, raws)
    ensures v.mem.storage + GrowthOf(v, FRAME_HEADER + |raws[i]|) <= v.options.maxBytes
    ensures Accepts(v, d, first + i, raws[i]) <==>
      (w.mem.members[d].archive.Some? ==>
         w.mem.members[d].archive.value.latest.offset + RawBytes(raws[..i + 1]) <= U64_MAX)
  {
    hide Healthy, PlanOf, RawBytes, PinnedBytes, Swept, PlanStep, BatchPlan, StartPlan, IndexGrowthOf, GrowthOf;
    NextPlan(w, v, d, first, raws, i);
    PlanBounds(w, d, raws, i);
    PlanSnoc(w.options.segmentBytes, StartPlan(w, d), raws, i);
    StepSizes(w.options.segmentBytes, StartPlan(v, d), raws[i]);
    SegmentsThere(v);
    assert FrameFits(w.options, raws[i]);
  }

  lemma SegmentsThere(w: World)
    requires Healthy(w)
    ensures w.mem.segments != []
  {
    hide Healthy, Swept;
    SweptFields(w);
  }

  lemma StepSizes(segmentBytes: nat, p: Plan, raw: Raw)
    ensures PlanStep(segmentBytes, p, raw).pinned == p.pinned + FRAME_HEADER + |raw|
    ensures PlanStep(segmentBytes, p, raw).represented
  {
  }

  lemma SameArchiveChain(a: Option<Protection>, b: Option<Protection>, c: Option<Protection>, p1: nat, b1: nat, p2: nat,
                         b2: nat)
    requires SameArchive(a, b, p1, b1) && SameArchive(b, c, p2, b2)
    ensures SameArchive(a, c, p1 + p2, b1 + b2)
  {
    hide PinnedBytes;
  }

  /** One more accepted record moves the log one step along the plan. */
  lemma MidwayStep(w: World, v: World, d: Id, first: nat, raws: seq<Raw>, i: nat)
    requires i < |raws| && Midway(w, v, d, first, raws, i) && Healthy(v) && Accepts(v, d, first + i, raws[i])
    requires v.mem.storage + GrowthOf(v, FRAME_HEADER + |raws[i]|) <= v.options.maxBytes
    ensures Midway(w, Appended(v, d, first + i, raws[i]), d, first, raws, i + 1)
  {
    hide Healthy, PlanOf, RawBytes, PinnedBytes, Swept, PlanStep, Accepts, Appended, SameArchive, GrowthOf;
    AppendedPlan(v, d, first + i, raws[i]);
    NextPlan(w, v, d, first, raws, i);
    PlanSnoc(w.options.segmentBytes, StartPlan(w, d), raws, i);
    var x := Appended(v, d, first + i, raws[i]);
    var p := PlanOf(w.options.segmentBytes, StartPlan(w, d), raws[..i]);
    var s := PlanStep(w.options.segmentBytes, StartPlan(v, d), raws[i]);
    SameArchiveChain(w.mem.members[d].archive, v.mem.members[d].archive, x.mem.members[d].archive, p.pinned,
                     RawBytes(raws[..i]), s.pinned, |raws[i]|);
    Sequences.Around(raws, i);
    Sequences.Associative(w.past.accepted[d], raws[..i], [raws[i]]);
    assert w.past.accepted[d := w.past.accepted[d] + raws[..i]][d := w.past.accepted[d] + raws[..i + 1]] ==
        w.past.accepted[d := w.past.accepted[d] + raws[..i + 1]];
  }

  /** Reclaiming first does not change what the batch will need. */
  lemma TrimmedFits(w: World, d: Id, first: nat, raws: seq<Raw>)
    requires Healthy(w) && BatchFits(w, d, first, raws)
    ensures var v := Trimmed(w, BatchPlan(w, d, raws).growth);
      && Healthy(v) && RoomFor(v, d, first, raws) && v.past.accepted == w.past.accepted
      && v.mem.members == w.mem.members
      && (Representable(v, d, raws) <==> Representable(w, d, raws))
  {
    hide Healthy, PlanOf, RawBytes, PinnedBytes, Swept, FrameFits;
    SweptKeeps(w);
    SweptFields(w);
    var v := Trimmed(w, BatchPlan(w, d, raws).growth);
    assert StartPlan(v, d) == StartPlan(w, d) && v.options == w.options;
  }

  /** An append that fails in the middle without a fault shows a counter running out. */
  lemma MidwayStops(w: World, v: World, d: Id, first: nat, raws: seq<Raw>, i: nat)
    requires i < |raws| && Midway(w, v, d, first, raws, i) && Healthy(v) && RoomFor(w, d, first, raws)
    requires !Accepts(v, d, first + i, raws[i]) || (Rolls(v, FRAME_HEADER + |raws[i]|) && v.mem.segment == U64_MAX)
    ensures !Representable(w, d, raws)
  {
    hide Healthy, PlanOf, RawBytes, PinnedBytes, RoomFor, Accepts, SameArchive, BatchPlan;
    MidwayAccepts(w, v, d, first, raws, i);
    PlanBounds(w, d, raws, i);
    NextPlan(w, v, d, first, raws, i);
  }

  lemma MidwayEnds(w: World, v: World, d: Id, first: nat, raws: seq<Raw>)
    requires Midway(w, v, d, first, raws, |raws|) && Healthy(v) && v.mem.segment <= U64_MAX
    ensures Representable(w, d, raws)
    ensures v.past.accepted == w.past.accepted[d := w.past.accepted[d] + raws]
  {
    hide Healthy, PlanOf, RawBytes, PinnedBytes;
    Sequences.Neutral(raws);
    ArchiveEncodable(v, d);
  }

  lemma ArchiveEncodable(w: World, d: Id)
    requires Healthy(w) && d in w.mem.members && !w.mem.members[d].retired
    ensures w.mem.members[d].archive.Some? ==> w.mem.members[d].archive.value.latest.offset <= U64_MAX
  {
    hide OnDisk, Active, Accounts, Tails, Live, Of, DurableSeq, Until, CursorAt, Here;
    HereEncodable(w);
    assert Known(Of(Live(w.past.segs), d), d, w.mem.members[d], w.disk.ledger, w.past.accepted, w.mem.durable,
                 Here(Last(w.past.segs)));
  }
}
