/**
 Recovery once more: reopening changes nothing, and what a reclaiming pass leaves behind
 when it is cut between two deletions.
 */
module LogAgain {
  import opened Prelude
  import opened FrameFormat
  import opened FrameRun
  import opened LogLayout
  import opened LogState
  import opened LogWrites
  import opened LogReclaim
  import opened LogCrash
  import opened LogScan
  import opened LogScanLaws
  import opened LogScanExact
  import opened LogOpen
  import opened LogStart
  import opened LogRuns
  import opened Recovery
  import Crc32
  import Sequences

  // ------------------------------------------------------------- idempotence

  /** Restarting a settled log without losing a byte keeps every segment. */
  lemma RestartKeepsSegments(w: World)
    requires OnDisk(w) && Settled(w.owner, w.disk, w.past) && w.past.segs != []
    ensures w.disk.files != [] && MayCut(w.owner, w.disk, w.past, |Last(w.disk.files).bytes|)
    ensures CutSegs(w.owner, w.past.segs, |Last(w.disk.files).bytes|) == w.past.segs
  {
    hide Threads, BoundariesOk, StableOk, SegsOk, Size, Survivor;
    LastInPlace(w.past.segs);
    SurvivorWhole(w.owner, Last(w.past.segs));
    Sequences.Snoc(w.past.segs);
  }

  lemma SurvivorWhole(owner: Owner, s: Seg)
    requires SegOk(s)
    ensures Survivor(owner, s, Length(s)) == s
  {
    hide Content, LegalFrames, Unfinished;
    if !Fenced(s) {
      var k := Whole(s.frames, Size(s.frames));
      Sequences.Neutral(s.frames);
      SizeMonotone(s.frames, if k < |s.frames| then k + 1 else k, |s.frames|);
      assert s.frames[..k] == s.frames;
    }
  }

  /** A settled log has nothing to lose: whatever the device does in a crash, everything stays. */
  lemma SettledUncut(w: World, n: nat)
    requires OnDisk(w) && Settled(w.owner, w.disk, w.past) && MayCut(w.owner, w.disk, w.past, n)
    ensures n == |Last(w.disk.files).bytes| && Crashed(w, n) == w
  {
    hide Layout, Threads, Live, Of, DurableSeq, CutSegs, Recovered, Cuts, Fenced;
    CutFull(w, n);
    RestartKeepsSegments(w);
    UncutRecords(w, n);
  }

  lemma CutFull(w: World, n: nat)
    requires OnDisk(w) && Settled(w.owner, w.disk, w.past) && MayCut(w.owner, w.disk, w.past, n)
    ensures n == |Last(w.disk.files).bytes| && CutFiles(w.disk.files, n) == w.disk.files
    ensures w.past.safe == LastLsn(Last(w.past.segs))
  {
    hide Layout, Threads;
    Sequences.Neutral(Last(w.disk.files).bytes);
  }

  lemma UncutRecords(w: World, n: nat)
    requires OnDisk(w) && Settled(w.owner, w.disk, w.past) && MayCut(w.owner, w.disk, w.past, n)
    ensures Crashed(w, n).past.accepted == w.past.accepted
  {
    hide Layout, Threads, Live, Of, DurableSeq, CutSegs, Recovered, Next, CutFiles;
    CutMembers(w, n);
    CrashKeeps(w, n);
    var v := Crashed(w, n);
    forall d | d in w.past.accepted ensures v.past.accepted[d] == w.past.accepted[d] { CrashAllDurable(w, d); }
  }

  lemma CutMembers(w: World, n: nat)
    requires OnDisk(w) && MayCut(w.owner, w.disk, w.past, n)
    ensures Crashed(w, n).past.accepted.Keys == w.past.accepted.Keys
  {
    hide Layout, Threads, Live, FramesOf, DurableOf, Crashed;
    CrashCuts(w, n);
  }

  /** The members of a recovered log are determined by its frames and authorities. */
  lemma MembersDetermined(ledger: Ledger, live: seq<Placed>, first: map<Id, Member>, again: map<Id, Member>)
    requires AllFinished(ShownAll(ledger, live), first) && AllFinished(ShownAll(ledger, live), again)
    ensures first == again
  {
    hide ShownAll, Finished;
    forall d | d in first ensures d in again && first[d] == again[d] {
      assert d in first.Keys;
      assert d in ShownAll(ledger, live).Keys;
    }
    assert first.Keys == again.Keys;
  }

  /** Opening is a function of the directory: the whole memory is the same each time. */
  lemma OpenedOnce(w: World, v: World)
    requires MayOpen(w, BaseOf(w)) && MayOpen(v, BaseOf(v))
    requires v.options == w.options && v.owner == w.owner && v.disk == w.disk
    requires v.past == w.past.(protections := v.past.protections)
    ensures v == w
  {
    hide OnDisk, Settled, Fenced, AllFinished, ShownAll, Live, Length, Storage, Charges, Summaries, BaseCharge,
         RegistryCharge, Affordable;
    MembersDetermined(w.disk.ledger, Live(w.past.segs), w.mem.members, v.mem.members);
  }

  lemma {:induction false} ChargesCount(segs: seq<Seg>)
    ensures SEGMENT_CHARGE * |segs| <= Charges(segs)
  {
    if segs != [] { ChargesCount(segs[..|segs| - 1]); }
  }

  /** An open log had room, so it has room again. */
  lemma OpenedOpenable(w: World)
    requires MayOpen(w, BaseOf(w)) && Countable(w.disk.ledger)
    ensures Openable(w) && !Rotates(w.past.segs)
  {
    hide Threads, SegsOk, BoundariesOk, StableOk, Content, Live, Storage, Charges, Countable, BaseCharge,
         RegistryCharge, Fenced, AllFinished, Summaries, ShownAll;
    ChargesCount(w.past.segs);
  }

  // -------------------------------------------- a reclaiming pass cut in two

  /** A log whose oldest file is an empty, fenced segment is refused unless its LSN is the first one. */
  lemma StrandedRefused(owner: Owner, options: Options, boundaries: map<nat, Boundary>, files: seq<File>, s: Seg,
                        members: map<Id, Member>, charged: nat)
    requires files != [] && forall i | 0 <= i < |files| :: files[i].number <= U64_MAX
    requires SegOk(s) && !s.whole && s.first != 1 && files[0] == File(s.number, Content(owner, s))
    requires s.number in boundaries && boundaries[s.number] == BoundaryOf(owner, s)
    ensures ScanFiles(owner, options, boundaries, files, 0, Begin(members, charged)).Err?
  {
    hide Content, LegalFrames, Unfinished, Crc32.Checksum, ScanWhole;
    var p := Begin(members, charged);
    assert CheckBoundary(boundaries, files[0]) == Ok(Some(BoundaryOf(owner, s)));
    assert ScanFile(owner, options, boundaries, files[0], 1 == |files|, p).Err?;
  }

  // The directory after the first k files of a reclaiming pass are deleted.
  function CutPass(w: World, k: nat): World
    requires k <= |w.past.segs| == |w.disk.files|
  {
    w.(disk := w.disk.(files := w.disk.files[k..], boundaries := w.disk.boundaries - Numbers(w.past.segs[..k])),
       past := w.past.(segs := w.past.segs[k..]))
  }

  // Two stores of boundaries that agree on these files; of deleted files either may hold some.
  predicate SameFences(a: map<nat, Boundary>, b: map<nat, Boundary>, files: seq<File>) {
    forall i | 0 <= i < |files| ::
      (files[i].number in a <==> files[i].number in b)
      && (files[i].number in a && files[i].number in b ==> a[files[i].number] == b[files[i].number])
  }

  /** The scan looks at no boundary but those of the files it finds. */
  lemma {:induction false} ScanIgnores(owner: Owner, options: Options, a: map<nat, Boundary>, b: map<nat, Boundary>,
                                       files: seq<File>, k: nat, p: Progress)
    requires k <= |files| && (forall i | 0 <= i < |files| :: files[i].number <= U64_MAX) && SameFences(a, b, files)
    ensures ScanFiles(owner, options, a, files, k, p) == ScanFiles(owner, options, b, files, k, p)
    decreases |files| - k
  {
    hide ScanEmpty, ScanWhole, Crc32.Checksum;
    if k < |files| {
      var q := ScanFile(owner, options, a, files[k], k + 1 == |files|, p);
      assert q == ScanFile(owner, options, b, files[k], k + 1 == |files|, p);
      if q.Ok? { ScanIgnores(owner, options, a, b, files, k + 1, q.value); }
    }
  }

  predicate Rescannable(files: seq<File>, k: nat, n: nat) {
    && files != [] && k < |files| && n <= |Last(files).bytes|
    && forall i | 0 <= i < |files| :: CutFiles(files, n)[i].number <= U64_MAX
  }

  // The next scan, after a crash in the middle of a pass: k files are gone, and the last is cut.
  function Rescan(w: World, k: nat, n: nat, boundaries: map<nat, Boundary>): Result<Progress>
    requires Rescannable(w.disk.files, k, n)
  {
    ScanFiles(w.owner, w.options, boundaries, CutFiles(w.disk.files, n)[k..], 0,
              Begin(AllLoaded(w.disk.ledger), BaseOf(w)))
  }

  // A pass at its k-th deletion: everything before is reclaimable, and there is room for a scan.
  predicate MidPass(w: World, k: nat, n: nat) {
    && Healthy(w) && MayCut(w.owner, w.disk, w.past, n)
    && k < |w.past.segs| == |w.mem.segments| == |w.disk.files|
    && (forall i | 0 <= i < k :: Reclaimable(w.mem.members, w.mem.segments[i]))
    && Affordable(w.options, BaseOf(w), w.past.segs) && Countable(w.disk.ledger)
  }

  /**
   A pass may be cut short by a crash between two deletions without harm exactly when the
   oldest file left has a header, or starts at the first LSN. This holds whatever the crash
   takes of the last file, and whether or not the boundaries of deleted files are still
   there. An empty fenced segment left in front makes the next recovery refuse the log,
   although no durable record is missing.
   */
  lemma PassMayStop(w: World, k: nat, n: nat, boundaries: map<nat, Boundary>)
    requires MidPass(w, k, n) && SameFences(boundaries, w.disk.boundaries, w.disk.files[k..])
    ensures Rescannable(w.disk.files, k, n)
    ensures Rescan(w, k, n, boundaries).Ok? <==> w.past.segs[k].whole || w.past.segs[k].first == 1
  {
    hide Healthy, Layout, Reclaimable, Affordable, Countable, BaseCharge, ScanFiles, Begin, AllLoaded, Numbers,
         SameFences, Length;
    PassNumbers(w);
    PassFences(w, k, n, boundaries);
    var left := CutFiles(w.disk.files, n)[k..];
    ScanIgnores(w.owner, w.options, boundaries, CutPass(w, k).disk.boundaries, left, 0,
                Begin(AllLoaded(w.disk.ledger), BaseOf(w)));
    if w.past.segs[k].whole || w.past.segs[k].first == 1 {
      PassScans(w, k, n);
    } else {
      PassStranded(w, k, n);
      StrandedRefused(w.owner, w.options, CutPass(w, k).disk.boundaries, left, w.past.segs[k],
                      AllLoaded(w.disk.ledger), BaseOf(w));
    }
  }

  lemma PassNumbers(w: World)
    requires Healthy(w)
    ensures |w.disk.files| == |w.past.segs| && forall i | 0 <= i < |w.disk.files| ::
      w.disk.files[i].number == w.past.segs[i].number <= U64_MAX
  {
    hide InMemory, Threads, BoundariesOk, StableOk, Content, LegalFrames, Unfinished;
    forall i | 0 <= i < |w.disk.files|
      ensures w.disk.files[i].number == w.past.segs[i].number <= U64_MAX
    {
      assert InPlace(w.past.segs, i);
    }
  }

  lemma PassFences(w: World, k: nat, n: nat, boundaries: map<nat, Boundary>)
    requires Healthy(w) && MayCut(w.owner, w.disk, w.past, n) && k < |w.past.segs| == |w.disk.files|
    requires SameFences(boundaries, w.disk.boundaries, w.disk.files[k..])
    requires forall i | 0 <= i < |w.disk.files| :: w.disk.files[i].number == w.past.segs[i].number
    ensures SameFences(boundaries, CutPass(w, k).disk.boundaries, CutFiles(w.disk.files, n)[k..])
  {
    hide Accounts, Members, Tails, Threads, StableOk, Content, LegalFrames, Unfinished, BoundaryOf, Numbers, FilesOk,
         BoundariesOk;
    var left := CutFiles(w.disk.files, n)[k..];
    NumbersConsecutive(w.past.segs, |w.past.segs| - 1);
    NumbersConsecutive(w.past.segs, k);
    forall i | 0 <= i < |left|
      ensures left[i].number == w.disk.files[k..][i].number && left[i].number !in Numbers(w.past.segs[..k])
    {
      NumbersConsecutive(w.past.segs, k + i);
      DroppedNumbers(w.past.segs, k, left[i].number);
    }
  }

  lemma PassStranded(w: World, k: nat, n: nat)
    requires Healthy(w) && MayCut(w.owner, w.disk, w.past, n) && k < |w.past.segs| == |w.disk.files|
    requires !w.past.segs[k].whole
    ensures SegOk(w.past.segs[k])
    ensures CutFiles(w.disk.files, n)[k] == File(w.past.segs[k].number, Content(w.owner, w.past.segs[k]))
    ensures var b := CutPass(w, k).disk.boundaries;
            w.past.segs[k].number in b && b[w.past.segs[k].number] == BoundaryOf(w.owner, w.past.segs[k])
  {
    hide Accounts, Members, Tails, Threads, StableOk, Content, LegalFrames, Unfinished, BoundaryOf, Numbers;
    assert InPlace(w.past.segs, k);
    NumbersConsecutive(w.past.segs, k);
    NumbersConsecutive(w.past.segs, |w.past.segs| - 1);
    DroppedNumbers(w.past.segs, k, w.past.segs[k].number);
  }

  lemma PassScans(w: World, k: nat, n: nat)
    requires MidPass(w, k, n) && Rescannable(w.disk.files, k, n)
    requires w.past.segs[k].whole || w.past.segs[k].first == 1
    ensures Rescan(w, k, n, CutPass(w, k).disk.boundaries).Ok?
  {
    hide Healthy, Layout, OnDisk, Reclaimable, Affordable, Countable, BaseCharge, ScanFiles, Begin, AllLoaded, Numbers,
         Settled, Scannable, ProgressAt, CutSegs, Recovered, Live, Length;
    PassOnDisk(w, k, n);
    var c := CutPass(w, k);
    CrashOrder(c, n);
    CrashKeeps(c, n);
    PassAffordable(w, k);
    CutAffordable(c, n);
    var v := Crashed(c, n);
    PassScannable(v);
    assert v.disk.files == CutFiles(w.disk.files, n)[k..];
    ScanExact(v.owner, v.options, v.disk.boundaries, v.disk.ledger, BaseOf(v), v.disk.files, v.past.segs,
              v.past.accepted, v.past.safe, 0);
    BeginIs(v);
  }

  lemma PassOnDisk(w: World, k: nat, n: nat)
    requires MidPass(w, k, n)
    requires w.past.segs[k].whole || w.past.segs[k].first == 1
    ensures OnDisk(CutPass(w, k)) && MayCut(w.owner, CutPass(w, k).disk, CutPass(w, k).past, n)
  {
    hide Layout, Accounts, Members, Tails, Threads, Reclaimable, Numbers, Live, Fenced, Content, Affordable, Countable;
    PassThreads(w, k);
    DropLayout(w.owner, w.disk, w.past, k);
  }

  lemma PassThreads(w: World, k: nat)
    requires Healthy(w) && k < |w.past.segs| == |w.mem.segments|
    requires forall i | 0 <= i < k :: Reclaimable(w.mem.members, w.mem.segments[i])
    ensures Threads(w.disk.ledger, Live(w.past.segs[k..]), w.past.accepted, w.past.safe)
  {
    hide FilesOk, BoundariesOk, StableOk, SegsOk, SegmentsAgree, Threads, Members, Tails, Live, Of, Reclaimable,
         Releasable, Storage, Charges, RegistryCharge, Content, Fenced, Size, Summary;
    Sequences.Cut(w.past.segs, k);
    LiveConcat(w.past.segs[..k], w.past.segs[k..]);
    forall d | d in w.mem.members && Of(Live(w.past.segs[..k]), d) != []
      ensures Releasable(w.mem.members[d], Last(Of(Live(w.past.segs[..k]), d)).frame.seqNo)
    {
      ReclaimedEnd(w.past.segs, w.mem.segments, w.mem.members, k, d);
    }
    OldIsStable(w.past.segs, w.disk.stable, w.past.safe, k);
    DropThreads(w.disk.ledger, Live(w.past.segs[..k]), Live(w.past.segs[k..]), w.past.accepted, w.past.safe,
                w.mem.members, Here(Last(w.past.segs)));
  }

  lemma PassAffordable(w: World, k: nat)
    requires Affordable(w.options, BaseOf(w), w.past.segs) && k < |w.past.segs|
    ensures Affordable(w.options, BaseOf(w), w.past.segs[k..])
  {
    hide Storage, Charges, BaseCharge;
    Sequences.Cut(w.past.segs, k);
    AccountConcat(w.past.segs[..k], w.past.segs[k..]);
  }

  /** A crash needs no more room. */
  lemma CutAffordable(w: World, n: nat)
    requires MayCut(w.owner, w.disk, w.past, n) && Affordable(w.options, BaseOf(w), w.past.segs)
    ensures Affordable(w.options, BaseOf(w), CutSegs(w.owner, w.past.segs, n))
  {
    hide Storage, Charges, BaseCharge, FilesOk, BoundariesOk, StableOk, SegOk, Survivor, Content, Fenced, SegmentCharge,
         Next, Length;
    var s := Last(w.past.segs);
    var m := |w.past.segs| - 1;
    CutReady(w.owner, w.disk, w.past, n);
    SurvivorContent(w.owner, s, n);
    SurvivorCharge(w.owner, s, n);
    Sequences.Snoc(w.past.segs);
    AccountSnoc(w.past.segs[..m], s);
    AccountSnoc(w.past.segs[..m], Survivor(w.owner, s, n));
  }

  lemma SurvivorCharge(owner: Owner, s: Seg, n: nat)
    requires n <= Length(s)
    ensures SegmentCharge(Survivor(owner, s, n)) <= SegmentCharge(s)
  {
    hide Content, Size, Summary, Whole;
    var kept := Survivor(owner, s, n).frames;
    assert kept <= s.frames || kept == [];
    SummaryGrows(s.frames, |kept|);
    assert s.frames[..|kept|] == kept;
  }

  lemma {:induction false} SummaryGrows(fs: seq<Frame>, k: nat)
    requires k <= |fs|
    ensures |Summary(fs[..k])| <= |Summary(fs)|
    decreases |fs|
  {
    hide Summary;
    if k == |fs| {
      assert fs[..k] == fs;
    } else {
      var m := |fs| - 1;
      SummaryGrows(fs[..m], k);
      assert fs[..m][..k] == fs[..k];
      Sequences.Snoc(fs);
      SummarySnoc(fs[..m], fs[m]);
    }
  }

  lemma PassScannable(v: World)
    requires OnDisk(v) && Settled(v.owner, v.disk, v.past) && v.past.segs != []
    requires Affordable(v.options, BaseOf(v), v.past.segs) && Countable(v.disk.ledger)
    ensures Scannable(v.owner, v.options, v.disk.boundaries, v.disk.ledger, BaseOf(v), v.disk.files, v.past.segs,
                      v.past.accepted, v.past.safe)
  {
    hide SegsOk, BoundariesOk, StableOk, Threads, Affordable, Countable, BaseCharge, Live, Content;
  }
}
