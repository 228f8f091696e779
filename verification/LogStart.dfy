/** From a settled directory to an open log: the steps of opening and when they have room. */
module LogStart {
  import opened Prelude
  import opened FrameFormat
  import opened FrameRun
  import opened LogLayout
  import opened LogState
  import opened LogWrites
  import opened LogRoll
  import opened LogCrash
  import opened LogScan
  import opened LogScanLaws
  import opened LogScanExact
  import opened LogScanSound
  import opened LogOpen
  import opened LogRuns
  import opened Recovery
  import Sequences

  predicate Rotates(segs: seq<Seg>) { segs == [] || Fenced(Last(segs)) }

  function BaseOf(w: World): nat { BaseCharge(w.disk.ledger, w.disk.ledger.registry) }

  /** Room for recovery: both budgets hold the log and, if it must rotate, one more header. */
  predicate Openable(w: World) {
    var room := if Rotates(w.past.segs) then 1 else 0;
    && |w.disk.files| <= w.options.indexBytes / SEGMENT_CHARGE
    && Affordable(w.options, BaseOf(w), w.past.segs) && Countable(w.disk.ledger)
    && Storage(w.past.segs) + room * SEGMENT_HEADER <= w.options.maxBytes
    && BaseOf(w) + Charges(w.past.segs) + room * SEGMENT_CHARGE <= w.options.indexBytes
    && (Rotates(w.past.segs) && w.past.segs != [] ==> Last(w.past.segs).number < U64_MAX)
  }

  predicate Closed(w: World) { OnDisk(w) && Settled(w.owner, w.disk, w.past) && w.options.Valid() }

  // ------------------------------------------------------------- the scan

  lemma ClosedStanding(w: World)
    requires Closed(w)
    ensures Standing(w.owner, w.disk.boundaries, w.disk.files, w.past.segs)
    ensures forall i | 0 <= i < |w.disk.files| :: w.disk.files[i].number <= U64_MAX
  {
    hide Threads, BoundariesOk, Content, StableOk, LegalFrames, Unfinished, Size;
    forall i | 0 <= i < |w.past.segs|
      ensures w.disk.files[i].number <= U64_MAX && w.disk.files[i].bytes == Content(w.owner, w.past.segs[i])
    {
      assert InPlace(w.past.segs, i);
    }
  }

  function Scanned(w: World): Progress {
    ProgressAt(w.owner, w.disk.boundaries, w.disk.ledger, BaseOf(w), w.past.segs, |w.past.segs|)
  }

  lemma BeginIs(w: World)
    ensures Begin(AllLoaded(w.disk.ledger), BaseOf(w)) == ProgressAt(w.owner, w.disk.boundaries, w.disk.ledger,
                                                                     BaseOf(w), w.past.segs, 0)
  {
    hide Loaded, BaseCharge;
    var none := w.past.segs[..0];
    assert none == [] && Live(none) == [] && Charges(none) == 0 && Storage(none) == 0 && Summaries(none) == [];
    forall d | d in w.disk.ledger.manifests
      ensures Shown(Loaded(w.disk.ledger, d), Of([], d)) == Loaded(w.disk.ledger, d)
    {
    }
    assert ShownAll(w.disk.ledger, []) == AllLoaded(w.disk.ledger);
  }

  /** What the scan of a closed log can answer: everything it holds, or an error for want of room. */
  lemma ScanOfClosed(w: World)
    requires Closed(w)
    ensures forall i | 0 <= i < |w.disk.files| :: w.disk.files[i].number <= U64_MAX
    ensures var r := ScanFiles(w.owner, w.options, w.disk.boundaries, w.disk.files, 0,
                               Begin(AllLoaded(w.disk.ledger), BaseOf(w)));
      && (r.Ok? ==> r.value == Scanned(w) && NextFits(r.value))
      && (r.Ok? && w.past.segs != [] ==> Storage(w.past.segs) <= w.options.maxBytes)
      && (Openable(w) ==> r.Ok?)
  {
    hide Threads, Content, ProgressAt, ScanFiles, BoundariesOk, Countable, Storage, Charges, BaseCharge, SegsOk,
         AllLoaded, Begin, FilesOk, StableOk, Live;
    ClosedStanding(w);
    BeginIs(w);
    var r := ScanFiles(w.owner, w.options, w.disk.boundaries, w.disk.files, 0,
                       Begin(AllLoaded(w.disk.ledger), BaseOf(w)));
    if r.Ok? {
      ScanSound(w.owner, w.options, w.disk.boundaries, w.disk.ledger, BaseOf(w), w.disk.files, w.past.segs, 0);
      BeginFits(w);
      ScanNextFits(w.owner, w.options, w.disk.boundaries, w.disk.files, 0, Begin(AllLoaded(w.disk.ledger), BaseOf(w)));
    }
    if Openable(w) {
      ScanExact(w.owner, w.options, w.disk.boundaries, w.disk.ledger, BaseOf(w), w.disk.files, w.past.segs,
                w.past.accepted, w.past.safe, 0);
    }
  }

  lemma BeginFits(w: World)
    ensures NextFits(Begin(AllLoaded(w.disk.ledger), BaseOf(w)))
  {
    hide AllLoaded, BaseCharge;
  }

  lemma ClosedBefore(w: World)
    requires Closed(w) && Storage(w.past.segs) <= w.options.maxBytes
    ensures Somewhere(Live(w.past.segs))
    ensures w.past.segs != [] ==> Before(Live(w.past.segs), Here(Last(w.past.segs)), w.past.safe + 1)
    ensures w.past.segs == [] ==> Live(w.past.segs) == []
  {
    hide Threads, Content, FilesOk, BoundariesOk, StableOk, Storage, Live, Somewhere, Before, SegsOk, Size;
    LiveSomewhere(w.past.segs);
    if w.past.segs != [] { LiveBefore(w.past.segs); } else { LiveNone(w.past.segs); }
  }

  /** Every member of a closed log can be finished. */
  lemma ClosedFinish(w: World)
    requires Closed(w) && Storage(w.past.segs) <= w.options.maxBytes
    ensures forall d | d in ShownAll(w.disk.ledger, Live(w.past.segs)) ::
      Finished(ShownAll(w.disk.ledger, Live(w.past.segs))[d]).Ok?
  {
    hide Layout, Threads, Settled, Content, Storage, Live, Finished, ShownAll, Somewhere, Before;
    ClosedBefore(w);
    var live := Live(w.past.segs);
    ShownKeys(w.disk.ledger, live);
    forall d | d in ShownAll(w.disk.ledger, live) ensures Finished(ShownAll(w.disk.ledger, live)[d]).Ok? {
      assert d in ShownAll(w.disk.ledger, live).Keys;
      if w.past.segs == [] {
        NothingBefore(live, Pointer(1, SEGMENT_HEADER), w.past.safe + 1);
        CanFinish(w.disk.ledger, live, w.past.accepted, w.past.safe, Pointer(1, SEGMENT_HEADER), d);
      } else {
        CanFinish(w.disk.ledger, live, w.past.accepted, w.past.safe, Here(Last(w.past.segs)), d);
      }
    }
  }

  lemma NothingBefore(ps: seq<Placed>, at: Pointer, lsn: nat)
    requires ps == []
    ensures Before(ps, at, lsn)
  {
  }

  // ---------------------------------------------------------- the steps

  // The directory once the torn last file has its boundary.
  function FencedWorld(w: World): World {
    if w.past.segs != [] && Fenced(Last(w.past.segs)) && Last(w.past.segs).number !in w.disk.boundaries
    then
      var last := Last(w.past.segs);
      w.(disk := w.disk.(boundaries := w.disk.boundaries[last.number := BoundaryOf(w.owner, last)]))
    else w
  }

  lemma FenceKeeps(w: World)
    requires Closed(w)
    ensures Closed(FencedWorld(w)) && LogsOf(FencedWorld(w)) == LogsOf(w)
    ensures FencedWorld(w).past.segs != [] && Fenced(Last(w.past.segs)) ==>
      Last(w.past.segs).number in FencedWorld(w).disk.boundaries
  {
    hide Threads, Content, SegsOk, FilesOk, BoundariesOk, StableOk, Live, LogsOf, Fenced, BoundaryOf;
    if w.past.segs != [] && Fenced(Last(w.past.segs)) && Last(w.past.segs).number !in w.disk.boundaries {
      FenceLayout(w.owner, w.disk, w.past);
    }
    FenceSame(w);
  }

  lemma FenceSame(w: World)
    ensures LogsOf(FencedWorld(w)) == LogsOf(w)
  {
    hide Live, Of, DurableSeq, Fenced, BoundaryOf;
    SameLogs(w, FencedWorld(w));
  }

  function NextNumber(w: World): nat { if w.past.segs == [] then 1 else Last(w.past.segs).number + 1 }

  // The directory once a new segment file was created, or `n` bytes of it.
  function Grown(w: World, n: nat): World
    requires n <= SEGMENT_HEADER
  {
    HeaderLength(w.owner, NextNumber(w), w.past.safe + 1);
    w.(disk := w.disk.(files := w.disk.files + [File(NextNumber(w),
                                                     EncodeHeader(w.owner, NextNumber(w), w.past.safe + 1)[..n])],
                       stable := if n == SEGMENT_HEADER then n else 0),
       past := w.past.(segs := w.past.segs + [Fresh(NextNumber(w), w.past.safe + 1)]))
  }

  predicate MayExtend(w: World) {
    && Closed(w) && NextNumber(w) <= U64_MAX && w.past.safe + 1 <= U64_MAX
    && (w.past.segs != [] && Fenced(Last(w.past.segs)) ==> Last(w.past.segs).number in w.disk.boundaries)
  }

  lemma ExtendOnDisk(w: World, n: nat)
    requires MayExtend(w) && n <= SEGMENT_HEADER
    ensures OnDisk(Grown(w, n)) && LogsOf(Grown(w, n)) == LogsOf(w)
  {
    hide Threads, Content, SegsOk, FilesOk, BoundariesOk, StableOk, Live, LogsOf, EncodeHeader, Fenced, Next;
    var number, first := NextNumber(w), w.past.safe + 1;
    HeaderLength(w.owner, number, first);
    CreateLayout(w.owner, w.disk, w.past, number, first, EncodeHeader(w.owner, number, first)[..n],
                 if n == SEGMENT_HEADER then n else 0);
    FreshLive(w.past.segs, number, first);
    ExtendSame(w, n);
  }

  lemma ExtendSame(w: World, n: nat)
    requires n <= SEGMENT_HEADER
    ensures LogsOf(Grown(w, n)) == LogsOf(w)
  {
    hide Live, Of, DurableSeq, EncodeHeader;
    FreshLive(w.past.segs, NextNumber(w), w.past.safe + 1);
    SameLogs(w, Grown(w, n));
  }

  /** A complete new segment leaves a settled log whose last segment may be written. */
  lemma ExtendSettled(w: World)
    requires MayExtend(w)
    ensures Closed(Grown(w, SEGMENT_HEADER)) && !Fenced(Last(Grown(w, SEGMENT_HEADER).past.segs))
    ensures Grown(w, SEGMENT_HEADER).past.safe == w.past.safe
    ensures Grown(w, SEGMENT_HEADER).disk.files ==
            w.disk.files + [File(NextNumber(w), EncodeHeader(w.owner, NextNumber(w), w.past.safe + 1))]
  {
    hide Threads, Content, Layout, Live, LogsOf, EncodeHeader;
    ExtendOnDisk(w, SEGMENT_HEADER);
    FreshContent(w.owner, NextNumber(w), w.past.safe + 1);
    FreshOk2(w);
    Sequences.Neutral(EncodeHeader(w.owner, NextNumber(w), w.past.safe + 1));
  }

  lemma FreshOk2(w: World)
    ensures !Fenced(Fresh(NextNumber(w), w.past.safe + 1))
    ensures Next(Fresh(NextNumber(w), w.past.safe + 1)) == w.past.safe + 1
  {
  }

  // ------------------------------------------------------------ the memory

  lemma GrownBooks(w: World)
    ensures var v := Grown(w, SEGMENT_HEADER);
      && Summaries(v.past.segs) == Summaries(w.past.segs) + [Segment(NextNumber(w), SEGMENT_HEADER, map[])]
      && Storage(v.past.segs) == Storage(w.past.segs) + SEGMENT_HEADER
      && Charges(v.past.segs) == Charges(w.past.segs) + SEGMENT_CHARGE
      && Live(v.past.segs) == Live(w.past.segs) && v.disk.ledger == w.disk.ledger && v.past.accepted == w.past.accepted
      && Last(v.past.segs).number == NextNumber(w) && Length(Last(v.past.segs)) == SEGMENT_HEADER
      && Next(Last(v.past.segs)) == w.past.safe + 1
      && BaseOf(v) == BaseOf(w)
  {
    hide Storage, Charges, Live, EncodeHeader, BaseCharge;
    var f := Fresh(NextNumber(w), w.past.safe + 1);
    FreshContent(w.owner, NextNumber(w), w.past.safe + 1);
    AccountSnoc(w.past.segs, f);
    FreshLive(w.past.segs, NextNumber(w), w.past.safe + 1);
    FreshSummary(f);
    assert Summaries(w.past.segs + [f]) == Summaries(w.past.segs) + [SegmentOf(f)];
  }

  lemma FreshSummary(f: Seg)
    requires f.frames == []
    ensures SegmentCharge(f) == SEGMENT_CHARGE
  {
    assert Summary(f.frames) == map[];
  }

  // Where the scan left off, in terms of the history.
  lemma ScannedIs(w: World)
    requires Closed(w)
    ensures var p := Scanned(w);
      && p.members == ShownAll(w.disk.ledger, Live(w.past.segs)) && p.charged == BaseOf(w) + Charges(w.past.segs)
      && p.storage == Storage(w.past.segs) && p.segments == Summaries(w.past.segs)
      && (if w.past.segs == [] then p.next == None && w.past.safe == 0 else p.next == Some(w.past.safe + 1))
      && p.rotate == (w.past.segs != [] && Fenced(Last(w.past.segs)))
      && (p.fence.Some? <==>
            w.past.segs != [] && Fenced(Last(w.past.segs)) && Last(w.past.segs).number !in w.disk.boundaries)
      && (p.fence.Some? ==> p.fence.value == BoundaryOf(w.owner, Last(w.past.segs)))
      && |w.disk.files| == |w.past.segs|
      && (w.past.segs != [] ==> Last(w.disk.files).number == Last(w.past.segs).number)
  {
    hide Threads, Content, SegsOk, BoundariesOk, Size, Live, Storage, Charges, BaseCharge, Summaries, ShownAll, Fenced,
         BoundaryOf, Next;
    Sequences.Neutral(w.past.segs);
  }

  /** With its memory in place, a settled log whose last segment is free is open. */
  lemma StartedMayOpen(v: World, x: World, base: nat)
    requires Closed(v) && v.past.segs != [] && !Fenced(Last(v.past.segs)) && base == BaseOf(v)
    requires x.options == v.options && x.owner == v.owner && x.disk == v.disk
    requires RegistryCharge(v.disk.ledger.registry) <= base
    requires x.past == v.past.(protections := base - RegistryCharge(v.disk.ledger.registry))
    requires OpenedMemory(x, base)
    requires Storage(v.past.segs) <= v.options.maxBytes && base + Charges(v.past.segs) <= v.options.indexBytes
    requires Next(Last(v.past.segs)) <= U64_MAX
    ensures MayOpen(x, base)
    ensures LogsOf(x) == LogsOf(v)
  {
    hide Threads, Content, SegsOk, FilesOk, BoundariesOk, StableOk, Size, Live, Storage, Charges, BaseCharge,
         RegistryCharge, OpenedMemory, LogsOf, Fenced, Next;
    SameLogs(v, x);
  }

  /** The open log that a settled directory becomes. */
  function Started(v: World, found: map<Id, Member>, base: nat): World
    requires v.past.segs != [] && RegistryCharge(v.disk.ledger.registry) <= base
  {
    var s := Last(v.past.segs);
    World(v.options, v.owner,
          Memory(s.number, Length(s), v.past.safe, v.past.safe, [], Storage(v.past.segs), base + Charges(v.past.segs),
                 found, Summaries(v.past.segs), map[]),
          v.disk, v.past.(protections := base - RegistryCharge(v.disk.ledger.registry)))
  }

  lemma StartedHealthy(v: World, found: map<Id, Member>, base: nat)
    requires Closed(v) && v.past.segs != [] && !Fenced(Last(v.past.segs)) && base == BaseOf(v)
    requires RegistryCharge(v.disk.ledger.registry) <= base
    requires Storage(v.past.segs) <= v.options.maxBytes && base + Charges(v.past.segs) <= v.options.indexBytes
    requires v.past.safe + 1 <= U64_MAX
    requires AllFinished(ShownAll(v.disk.ledger, Live(v.past.segs)), found)
    ensures Healthy(Started(v, found, base)) && LogsOf(Started(v, found, base)) == LogsOf(v)
    ensures MayOpen(Started(v, found, base), base)
  {
    hide OnDisk, Layout, Storage, Charges, RegistryCharge, BaseCharge, Live, ShownAll, AllFinished, Summaries, Fenced,
         Length, LogsOf, Healthy, MayOpen, Next, Content;
    var x := Started(v, found, base);
    StartedMayOpen(v, x, base);
    OpenKeeps(x, base);
  }

  // A scan's tallies are those of this log.
  predicate Tallies(w: World, p: Progress, base: nat) {
    && p.storage == Storage(w.past.segs) && p.charged == base + Charges(w.past.segs)
    && p.segments == Summaries(w.past.segs)
    && p.next == Some(w.past.safe + 1) && w.past.safe + 1 <= U64_MAX
  }

  // Whether a log must start a new segment to be written.
  predicate ToRotate(w: World, p: Progress) {
    && (w.disk.files == [] || p.rotate <==> Rotates(w.past.segs))
    && |w.disk.files| == |w.past.segs| && (w.past.segs != [] ==> Last(w.disk.files).number == Last(w.past.segs).number)
  }

  lemma ScanTallies(w: World)
    requires Closed(w) && NextFits(Scanned(w))
    ensures var p := Scanned(w);
            var q := p.(next := if p.next.Some? then p.next else Some(1));
            && Tallies(FencedWorld(w), q, BaseOf(w)) && ToRotate(FencedWorld(w), q)
            && BaseOf(FencedWorld(w)) == BaseOf(w)
            && p.members == ShownAll(w.disk.ledger, Live(w.past.segs)) && FencedWorld(w).disk.ledger == w.disk.ledger
            && FencedWorld(w).past == w.past
  {
    hide Closed, Storage, Charges, BaseCharge, Live, ShownAll, Summaries, Fenced, Scanned, BoundaryOf;
    ScannedIs(w);
  }

  lemma GrownTallies(w: World, p: Progress, base: nat)
    requires MayExtend(w) && Tallies(w, p, base) && base == BaseOf(w)
    ensures var v := Grown(w, SEGMENT_HEADER);
            var q := p.(storage := p.storage + SEGMENT_HEADER, charged := p.charged + SEGMENT_CHARGE,
                        segments := p.segments + [Segment(NextNumber(w), SEGMENT_HEADER, map[])]);
            Tallies(v, q, base) && BaseOf(v) == base && v.past.segs != [] && Live(v.past.segs) == Live(w.past.segs)
              && v.disk.ledger == w.disk.ledger
  {
    hide Closed, Storage, Charges, BaseCharge, Live, Summaries, Fenced, EncodeHeader, Next, Length;
    GrownBooks(w);
    ExtendSettled(w);
  }
}
