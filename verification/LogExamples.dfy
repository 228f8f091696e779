/**
 Two states in which a promise of the log's design does not hold. The one a reclaiming pass
 leaves behind is built by operations from an empty directory. The one a batch fails in
 satisfies the invariant of the log, but no operation here makes it: an archive chain that
 begins close to the largest offset could only come from a stored archive file.
 */
module LogExamples {
  import opened Prelude
  import opened FrameFormat
  import opened FrameRun
  import opened LogLayout
  import opened LogState
  import opened LogWrites
  import opened LogRoll
  import opened LogPush
  import opened LogReclaim
  import opened LogSeal
  import opened LogMembers
  import opened LogArchive
  import opened LogBatch
  import opened LogCrash
  import opened LogScan
  import opened LogScanLaws
  import opened LogOpen
  import opened LogStart
  import opened LogAgain
  import opened Recovery

  const LIMITS: Options := Options(1_048_576, 4096, 4096, 65_536)

  function Empty(owner: Owner): World {
    World(LIMITS, owner, Memory(0, 0, 0, 0, [], 0, 0, map[], [], map[]),
          Disk([], map[], Ledger([], map[], map[], map[]), 0), History([], map[], 0, 0))
  }

  lemma EmptyClosed(owner: Owner)
    ensures MayExtend(Empty(owner))
  {
  }

  // An open log in its first segment, without members.
  lemma NewLog(owner: Owner) returns (w: World)
    ensures Healthy(w) && w.options == LIMITS && w.owner == owner && w.disk.ledger == Ledger([], map[], map[], map[])
    ensures w.disk.boundaries == map[]
    ensures w.mem == Memory(1, SEGMENT_HEADER, 0, 0, [], SEGMENT_HEADER, SEGMENT_CHARGE, map[],
                            [Segment(1, SEGMENT_HEADER, map[])], map[])
    ensures w.past == History([Fresh(1, 1)], map[], 0, 0)
  {
    hide Closed, Healthy, EncodeHeader, MayExtend, ShownAll, AllFinished, Storage, Charges, Summaries, Fenced, MayOpen;
    EmptyClosed(owner);
    var v := Grown(Empty(owner), SEGMENT_HEADER);
    ExtendSettled(Empty(owner));
    FirstSegment(owner);
    StartedHealthy(v, map[], 0);
    w := Started(v, map[], 0);
  }

  lemma FirstSegment(owner: Owner)
    ensures var v := Grown(Empty(owner), SEGMENT_HEADER);
      && v.past == History([Fresh(1, 1)], map[], 0, 0) && v.disk.ledger == Ledger([], map[], map[], map[])
      && v.disk.boundaries == map[]
      && Storage(v.past.segs) == SEGMENT_HEADER && Charges(v.past.segs) == SEGMENT_CHARGE && BaseOf(v) == 0
      && RegistryCharge(v.disk.ledger.registry) == 0
      && Summaries(v.past.segs) == [Segment(1, SEGMENT_HEADER, map[])] && Length(Last(v.past.segs)) == SEGMENT_HEADER
      && AllFinished(ShownAll(v.disk.ledger, Live(v.past.segs)), map[])
  {
    hide EncodeHeader, Live, Shown, Loaded, Of;
    FreshContent(owner, 1, 1);
    FreshSummary(Fresh(1, 1));
    var segs := [Fresh(1, 1)];
    assert [] + segs == segs && segs[..0] == [] && Storage([]) == 0 && Charges([]) == 0;
    hide Length, SegmentCharge, SegmentOf;
    assert Summaries(segs) == [SegmentOf(Fresh(1, 1))];
    assert Last(segs) == Fresh(1, 1);
  }

  // The same with one new member.
  lemma NewMemberLog(owner: Owner, d: Id) returns (w: World)
    ensures Healthy(w) && w.options == LIMITS && w.owner == owner && w.disk.boundaries == map[]
    ensures w.disk.ledger == Ledger([Registration(d, 256)], map[d := []], map[], map[])
    ensures w.mem == Memory(1, SEGMENT_HEADER, 0, 0, [], SEGMENT_HEADER, SEGMENT_CHARGE + 256, map[d := NewMember([])],
                            [Segment(1, SEGMENT_HEADER, map[])], map[d := []])
    ensures w.past == History([Fresh(1, 1)], map[d := []], 0, 0)
  {
    hide Healthy;
    var v := NewLog(owner);
    RegisterKeeps(v, d, 256, []);
    w := Registered(v, d, 256, []);
  }

  function Sample(): Raw { EncodeRecord(1, [0]) }

  lemma SampleRecord()
    ensures InspectRecord(Sample()) == Ok(1) && |Sample()| == RECORD_HEADER + 1
  {
    hide RecordCrc, InspectRecord;
    RecordDecodes(1, [0]);
    RecordParts(1, [0]);
  }

  // --------------------------------------------- a counter the preflight skips

  lemma PlanOne(segmentBytes: nat, p: Plan, raw: Raw)
    ensures PlanOf(segmentBytes, p, [raw]) == PlanStep(segmentBytes, p, raw) && RawBytes([raw]) == |raw|
  {
    assert [raw][..0] == [] && Last([raw]) == raw;
    hide PlanStep;
  }

  /**
   A batch that passes its preflight and yet cannot be appended: the member's archive chain
   stands at the largest offset, which the preflight does not look at. The protection is put
   in place as if read from its file, since enabling one starts the chain near offset zero.
   */
  lemma BatchMayFail(owner: Owner, d: Id) returns (w: World)
    ensures Healthy(w) && InspectRecord(Sample()) == Ok(1)
    ensures BatchFits(w, d, 1, [Sample()]) && !Representable(w, d, [Sample()])
  {
    hide Healthy, InspectRecord, Sample, PlanOf, RawBytes, CursorAt;
    var v := NewMemberLog(owner, d);
    var far := Cursor(0, U64_MAX);
    var p := Protection(131_072, far, far, far);
    MayRetireFirst(v, d);
    FarChain(far);
    ProtectKeeps(v, d, p, PROTECTION_CHARGE);
    w := Protected(v, d, p, PROTECTION_CHARGE);
    SampleRecord();
    PlanOne(w.options.segmentBytes, StartPlan(w, d), Sample());
  }

  lemma MayRetireFirst(w: World, d: Id)
    requires Healthy(w) && w.mem.members == map[d := NewMember([])]
    ensures MayRetire(w, d) && NewMember([]).lsn == 0
  {
    hide Healthy;
  }

  lemma FarChain(far: Cursor)
    requires far.seqNo == 0
    ensures CursorAt(far, [], 0) == far
  {
    var none: seq<Raw> := [];
    assert none[0..0] == [];
  }

  // ------------------------------------------------- a pass cut between files

  function FirstFrame(d: Id): Frame { Frame(d, 1, 1, NOWHERE, Sample()) }

  // The first segment once it holds the first frame.
  function Filled(d: Id): Seg { Seg(1, 1, [FirstFrame(d)], true, []) }

  // One record, durable, sealed and checkpointed.
  lemma SealedLog(owner: Owner, d: Id) returns (w: World)
    ensures w.options == LIMITS && w.owner == owner && w.disk.boundaries == map[]
    ensures w.disk.ledger == Ledger([Registration(d, 256)], map[d := [Sample()]], map[], map[])
    ensures w.past == History([Filled(d)], map[d := [Sample()]], 1, 0) && w.mem.durable == w.mem.lsn == 1
    ensures w.mem.segment == 1
    ensures w.mem.tails == map[d := []]
    ensures Healthy(w)
  {
    hide Healthy, LegalFrame, EncodeFrame, Sample, InspectRecord, MayPush, MaySeal, WriteTo;
    var a := NewMemberLog(owner, d);
    var f := FirstFrame(d);
    FirstPush(a, d);
    PushKeeps(a, f);
    var b := Pushed(a, f);
    assert a.past.segs[..0] == [] && [] + [f] == [f] && [] + [Sample()] == [Sample()];
    assert b.past.segs == [Filled(d)];
    assert b.past.accepted == map[d := [Sample()]];
    HealthyFiles(b);
    FlushKeeps(b);
    SyncKeeps(Flushed(b));
    var c := Synced(Flushed(b));
    MaySealFirst(c, d);
    PublishKeeps(c, d);
    var e := Published(c, d);
    MayCheckpointFirst(e, d);
    CheckpointKeeps(e, d);
    w := Checkpointed(e, d);
  }

  lemma HealthyFiles(w: World)
    requires Healthy(w)
    ensures w.disk.files != []
  {
    hide OnDisk, Accounts, Members, Tails, Content, Fenced;
  }

  lemma FirstPush(w: World, d: Id)
    requires Healthy(w) && w.options == LIMITS && w.mem.members == map[d := NewMember([])] && w.mem.lsn == 0
    requires w.mem.buffer == []
    requires w.mem.storage == SEGMENT_HEADER && w.mem.charged == SEGMENT_CHARGE + 256
    requires w.mem.segments == [Segment(1, SEGMENT_HEADER, map[])]
    ensures MayPush(w, FirstFrame(d))
  {
    hide Healthy, InspectRecord, Sample;
    SampleRecord();
  }

  lemma MaySealFirst(w: World, d: Id)
    requires Healthy(w) && d in w.mem.members && !w.mem.members[d].retired && d in w.mem.tails
    requires w.mem.members[d].lsn <= w.mem.durable
    ensures MaySeal(w, d)
  {
    hide Healthy;
  }

  lemma MayCheckpointFirst(w: World, d: Id)
    requires Healthy(w) && d in w.mem.members && d in w.mem.tails && w.mem.tails[d] == []
    ensures MayCheckpoint(w, d)
  {
    hide Healthy;
  }

  // The second segment as a crash left it: an empty file, found and fenced.
  const TORN: Seg := Seg(2, 2, [], false, [])

  /** After a crash while the second segment was created, the log is opened again. */
  lemma TornLog(owner: Owner, d: Id) returns (w: World)
    ensures Closed(w) && w.options == LIMITS && w.owner == owner
    ensures w.disk.ledger == Ledger([Registration(d, 256)], map[d := [Sample()]], map[], map[])
    ensures w.past.segs == [Filled(d), TORN, Fresh(3, 2)] && w.past.safe == 1
  {
    hide Healthy, Closed, OnDisk, MayRoll, MayCut, Settled, Sample, EncodeHeader, EncodeFrame, Recovered, CutFiles,
         Live, MayExtend;
    var a := SealedLog(owner, d);
    MayRollNow(a);
    HalfCreateOnDisk(a, 0);
    var b := HalfCreated(a, 0);
    TornCut(b);
    CrashKeeps(b, 0);
    var c := Crashed(b, 0);
    assert c.past.segs == [Filled(d), TORN];
    ClosedFrom(c);
    FenceKeeps(c);
    var e := FencedWorld(c);
    MayExtendFrom(e);
    ExtendSettled(e);
    w := Grown(e, SEGMENT_HEADER);
    assert [Filled(d), TORN] + [Fresh(3, 2)] == [Filled(d), TORN, Fresh(3, 2)];
  }

  lemma MayRollNow(w: World)
    requires Healthy(w) && w.mem.durable == w.mem.lsn < U64_MAX && w.mem.segment < U64_MAX
    ensures MayRoll(w) && w.past.segs != []
  {
    hide Healthy;
    ActiveBounds(w);
  }

  lemma TornCut(w: World)
    requires OnDisk(w) && |w.past.segs| == 2 && w.past.segs[1] == Fresh(2, 2) && w.disk.files != []
    requires w.disk.stable == 0 && Last(w.disk.files).bytes == []
    ensures MayCut(w.owner, w.disk, w.past, 0) && CutSegs(w.owner, w.past.segs, 0) == [w.past.segs[0], TORN]
    ensures LastLsn(TORN) == 1
  {
    hide Threads, FilesOk, BoundariesOk, StableOk, SegsOk, EncodeHeader, Live;
    FreshContent(w.owner, 2, 2);
    assert Content(w.owner, Fresh(2, 2))[..0] == [];
    assert w.past.segs[..1] == [w.past.segs[0]];
  }

  lemma ClosedFrom(w: World)
    requires OnDisk(w) && Settled(w.owner, w.disk, w.past) && w.options == LIMITS
    ensures Closed(w)
  {
    hide OnDisk, Settled;
  }

  lemma MayExtendFrom(w: World)
    requires Closed(w) && w.past.segs != [] && Last(w.past.segs).number < U64_MAX && w.past.safe < U64_MAX
    requires Fenced(Last(w.past.segs)) ==> Last(w.past.segs).number in w.disk.boundaries
    ensures MayExtend(w)
  {
    hide Closed, Fenced;
  }

  // What the scan makes of the member: its checkpoint is what was sealed.
  lemma FoundCheckpoint(ledger: Ledger, live: seq<Placed>, found: map<Id, Member>, d: Id)
    requires AllFinished(ShownAll(ledger, live), found) && d in ledger.manifests && d !in ledger.retirements
    requires d !in ledger.archives
    requires Thread(Of(live, d))
    ensures d in found && found[d].checkpoint == |ledger.manifests[d]| && found[d].archive.None?
  {
    hide Of, Shown, Thread;
    assert d in ShownAll(ledger, live).Keys;
    ShownClosed(Loaded(ledger, d), Of(live, d), []);
  }

  lemma ThreadOf(w: World, d: Id)
    requires Closed(w) && d in w.disk.ledger.manifests
    ensures Thread(Of(Live(w.past.segs), d))
  {
    hide Layout, Live, Of, Thread, Carries, DurableSeq, Settled;
    assert Stored(Of(Live(w.past.segs), d), d, w.disk.ledger, w.past.accepted, w.past.safe);
  }

  // The accounts of the three segments.
  lemma ThreeAccounts(d: Id)
    ensures var segs := [Filled(d), TORN, Fresh(3, 2)];
      && Storage(segs) == 2 * SEGMENT_HEADER + FRAME_HEADER + |Sample()|
      && Charges(segs) == 3 * SEGMENT_CHARGE + ENTRY_CHARGE
      && Summary([FirstFrame(d)]) == map[d := 1]
  {
    hide Sample;
    var f := FirstFrame(d);
    assert [f][..0] == [] && Summary([]) == map[] && Size([]) == 0 && Summary([f]) == map[d := 1]
      && Size([f]) == FRAME_HEADER + |Sample()|;
    var a, b := Filled(d), Fresh(3, 2);
    assert SegmentCharge(a) == SEGMENT_CHARGE + ENTRY_CHARGE && SegmentCharge(TORN) == SEGMENT_CHARGE
      && SegmentCharge(b) == SEGMENT_CHARGE;
    assert Length(a) == SEGMENT_HEADER + FRAME_HEADER + |Sample()| && Length(TORN) == 0 && Length(b) == SEGMENT_HEADER;
    hide SegmentCharge, Length;
    assert Storage([]) == 0 && Charges([]) == 0;
    assert [a, TORN, b] == ([] + [a]) + [TORN] + [b];
    AccountSnoc([], a);
    AccountSnoc([] + [a], TORN);
    AccountSnoc([] + [a] + [TORN], b);
  }

  /**
   A pass that may delete the first segment and is cut right after it: the segment left in
   front is empty, and the next recovery refuses the log, although nothing that a member
   needs is missing.
   */
  lemma PassMayStrand(owner: Owner, d: Id) returns (w: World)
    ensures Healthy(w) && Settled(w.owner, w.disk, w.past) && Openable(w)
    ensures |w.past.segs| == |w.disk.files| == |w.mem.segments| == 3 && Reclaimable(w.mem.members, w.mem.segments[0])
    ensures ReclaimCount(w.mem.members, w.mem.segments, w.mem.segment) >= 1
    ensures forall i | 1 <= i < 3 :: w.disk.files[i].number <= U64_MAX
    ensures ScanFiles(w.owner, w.options, CutPass(w, 1).disk.boundaries, w.disk.files[1..], 0,
                      Begin(AllLoaded(w.disk.ledger), BaseOf(w))).Err?
  {
    hide Healthy, Closed, Settled, AllFinished, ShownAll, Live, Storage, Charges, Sample, ScanFiles, Begin, AllLoaded,
         MayOpen, Finished, Of, Thread,
         Countable, Summaries, CutPass, BaseCharge, RegistryCharge, Size, Summary, Reclaimable, ReclaimCount,
         Openable, Length;
    var v := TornLog(owner, d);
    var found := StrandedFound(v, d);
    StartedHealthy(v, found, BaseOf(v));
    w := Started(v, found, BaseOf(v));
    StrandedFacts(w, d);
    StrandedPass(w);
  }

  // What opening finds in those three segments.
  lemma StrandedFound(v: World, d: Id) returns (found: map<Id, Member>)
    requires v.options == LIMITS && v.past.segs == [Filled(d), TORN, Fresh(3, 2)]
    requires v.disk.ledger == Ledger([Registration(d, 256)], map[d := [Sample()]], map[], map[])
    requires Closed(v)
    ensures d in found && found[d].checkpoint == 1 && found[d].archive.None?
    ensures AllFinished(ShownAll(v.disk.ledger, Live(v.past.segs)), found)
    ensures BaseOf(v) == 256 == RegistryCharge(v.disk.ledger.registry) && Countable(v.disk.ledger)
    ensures Storage(v.past.segs) <= LIMITS.maxBytes && BaseOf(v) + Charges(v.past.segs) <= LIMITS.indexBytes
    ensures Summary([FirstFrame(d)]) == map[d := 1]
  {
    hide Healthy, Closed, AllFinished, ShownAll, Live, Storage, Charges, Sample, Finished, Of, Thread, Countable,
         BaseCharge, RegistryCharge, Size, Summary, Length;
    SampleRecord();
    ThreeAccounts(d);
    SmallCharges(d, v.disk.ledger);
    ClosedFinish(v);
    found := map e | e in ShownAll(v.disk.ledger, Live(v.past.segs)) ::
      Finished(ShownAll(v.disk.ledger, Live(v.past.segs))[e]).value;
    FoundAll(v.disk.ledger, Live(v.past.segs), found);
    ThreadOf(v, d);
    FoundCheckpoint(v.disk.ledger, Live(v.past.segs), found, d);
  }

  lemma StrandedPass(w: World)
    requires Healthy(w) && MayOpen(w, BaseOf(w)) && Countable(w.disk.ledger)
    requires |w.past.segs| == |w.mem.segments| == 3 && Reclaimable(w.mem.members, w.mem.segments[0])
    requires w.past.segs[1] == TORN
    ensures Settled(w.owner, w.disk, w.past) && Openable(w) && |w.disk.files| == 3
    ensures forall i | 1 <= i < 3 :: w.disk.files[i].number <= U64_MAX
    ensures ScanFiles(w.owner, w.options, CutPass(w, 1).disk.boundaries, w.disk.files[1..], 0,
                      Begin(AllLoaded(w.disk.ledger), BaseOf(w))).Err?
  {
    hide Healthy, Closed, AllFinished, ShownAll, Live, Storage, Charges, ScanFiles, Begin, AllLoaded, OpenedMemory,
         OnDisk, Settled, Fenced, Openable,
         Countable, CutPass, BaseCharge, RegistryCharge, Reclaimable, Affordable;
    PassNumbers(w);
    OpenedOpenable(w);
    var n := |Last(w.disk.files).bytes|;
    RestartKeepsSegments(w);
    CutFull(w, n);
    PassFences(w, 1, n, w.disk.boundaries);
    PassMayStop(w, 1, n, CutPass(w, 1).disk.boundaries);
  }

  lemma SmallCharges(d: Id, ledger: Ledger)
    requires ledger == Ledger([Registration(d, 256)], map[d := [Sample()]], map[], map[])
    ensures BaseCharge(ledger, ledger.registry) == 256 == RegistryCharge(ledger.registry) && Countable(ledger)
  {
    hide Sample;
    assert ledger.registry[..0] == [] && Last(ledger.registry) == Registration(d, 256);
    assert BaseCharge(ledger, []) == 0 && RegistryCharge([]) == 0;
  }

  lemma FoundAll(ledger: Ledger, live: seq<Placed>, found: map<Id, Member>)
    requires forall e | e in ShownAll(ledger, live) :: Finished(ShownAll(ledger, live)[e]).Ok?
    requires found == map e | e in ShownAll(ledger, live) :: Finished(ShownAll(ledger, live)[e]).value
    ensures AllFinished(ShownAll(ledger, live), found)
  {
    hide Finished, ShownAll;
  }

  lemma StrandedFacts(w: World, d: Id)
    requires w.past.segs == [Filled(d), TORN, Fresh(3, 2)] && w.mem.segments == Summaries(w.past.segs)
    requires w.mem.segment == 3
    requires Summary([FirstFrame(d)]) == map[d := 1]
    requires d in w.mem.members && w.mem.members[d].checkpoint == 1 && w.mem.members[d].archive.None?
    ensures |w.mem.segments| == 3 && Reclaimable(w.mem.members, w.mem.segments[0])
    ensures ReclaimCount(w.mem.members, w.mem.segments, w.mem.segment) >= 1
  {
    hide Sample, Summary, Length;
    assert w.mem.segments[0] == SegmentOf(Filled(d));
  }
}
