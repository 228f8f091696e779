/**
 Whatever a scan of a settled log accepts is exactly what the log holds, with no
 assumption on budgets or counters.
 */
module LogScanSound {
  import opened Prelude
  import opened FrameFormat
  import opened FrameRun
  import opened LogLayout
  import opened LogState
  import opened LogScan
  import opened LogScanLaws
  import opened LogScanExact
  import Crc32
  import Sequences

  lemma AdmitSound(m: Member, f: Frame, at: Pointer)
    ensures Admit(m, f, at).Ok? ==> Admit(m, f, at).value == After(m, Placed(f, at))
  {
  }

  lemma ShownPut(ledger: Ledger, a: seq<Placed>, p: Placed)
    requires p.frame.id in ledger.manifests
    ensures ShownAll(ledger, a + [p]) == ShownAll(ledger, a)[p.frame.id := After(ShownAll(ledger, a)[p.frame.id], p)]
  {
    hide Of, Loaded, Shown, After;
    var d := p.frame.id;
    OfSnoc(a, p, d);
    ShownSnoc(Loaded(ledger, d), Of(a, d), p);
    forall e | e in ledger.manifests && e != d ensures Of(a + [p], e) == Of(a, e) { OfOther(a, p, e); }
  }

  lemma SweepFrameSound(options: Options, number: nat, s: Sweep, f: Frame)
    requires SweepFrame(options, number, s, f).Ok?
    ensures f.id in s.members
    ensures SweepFrame(options, number, s, f).value ==
      Sweep(s.members[f.id := After(s.members[f.id], Placed(f, Pointer(number, s.offset)))], s.entries[f.id := f.seqNo],
            s.charged + (if f.id in s.entries then 0 else ENTRY_CHARGE), s.next + 1, s.offset + FrameLength(f))
  {
    hide Admit, After, FrameLength;
    AdmitSound(s.members[f.id], f, Pointer(number, s.offset));
  }

  lemma SweepStepSound(options: Options, ledger: Ledger, before: seq<Placed>, s: Seg, charged: nat, k: nat)
    requires k < |s.frames| && s.whole
    requires SweepFrame(options, s.number, SweepAt(ledger, before, s, charged, k), s.frames[k]).Ok?
    ensures SweepFrame(options, s.number, SweepAt(ledger, before, s, charged, k), s.frames[k]).value ==
        SweepAt(ledger, before, s, charged, k + 1)
  {
    hide Places, Size, Summary, ShownAll, Admit, SweepFrame, FrameLength, After;
    var f := s.frames[k];
    var at := Pointer(s.number, SEGMENT_HEADER + Size(s.frames[..k]));
    var a := before + Places(s.number, s.frames[..k]);
    SweepFrameSound(options, s.number, SweepAt(ledger, before, s, charged, k), f);
    PlacesAt(before, s, k);
    ShownKeys(ledger, a);
    assert f.id in ShownAll(ledger, a).Keys;
    ShownPut(ledger, a, Placed(f, at));
    Sequences.Around(s.frames, k);
    SummarySnoc(s.frames[..k], f);
    RunSnoc(s.frames[..k], f);
  }

  lemma SweepOneSound(options: Options, number: nat, bytes: seq<Byte>, end: nat, s: Sweep, f: Frame, more: seq<Byte>)
    requires LegalFrame(f) && s.offset + FrameLength(f) <= end <= |bytes|
    requires bytes[s.offset..end] == EncodeFrame(f) + more
    requires SweepFrames(options, number, bytes, end, s).Ok?
    ensures SweepFrame(options, number, s, f).Ok?
    ensures SweepFrame(options, number, s, f).value.offset == s.offset + FrameLength(f)
    ensures SweepFrames(options, number, bytes, end, s) == SweepFrames(options, number, bytes, end,
                                                                       SweepFrame(options, number, s, f).value)
  {
    hide LegalFrame, EncodeFrame, SweepFrame, Inspect, Unfinished, FrameLen;
    WholeFrameReads(f, more);
    if SweepFrame(options, number, s, f).Ok? { SweepFrameSound(options, number, s, f); }
  }

  lemma {:induction false} SweepRunSound(owner: Owner, options: Options, ledger: Ledger, before: seq<Placed>, s: Seg,
                                         charged: nat, k: nat, end: nat)
    requires k <= |s.frames| && SegOk(s) && s.whole && (end == End(s) || end == Length(s))
    requires SweepAt(ledger, before, s, charged, k).offset <= end <= Length(s)
    requires SweepFrames(options, s.number, Content(owner, s), end, SweepAt(ledger, before, s, charged, k)).Ok?
    ensures SweepFrames(options, s.number, Content(owner, s), end, SweepAt(ledger, before, s, charged, k)).value
            == SweepAt(ledger, before, s, charged, |s.frames|)
    decreases |s.frames| - k
  {
    hide Places, Size, Content, SegOk, EncodeFrame, SweepAt, FrameLength, SweepFrames, SweepFrame, LegalFrame;
    Sequences.Neutral(s.frames);
    SweepOffset(ledger, before, s, charged, k);
    if k == |s.frames| {
      SweepEnd(owner, options, s, end, SweepAt(ledger, before, s, charged, k));
    } else {
      var more := RestAt(owner, s, k, end);
      FrameLegal(s, k);
      RunAround(s.frames, k);
      SweepOneSound(options, s.number, Content(owner, s), end, SweepAt(ledger, before, s, charged, k), s.frames[k],
                    more);
      SweepStepSound(options, ledger, before, s, charged, k);
      SweepRunSound(owner, options, ledger, before, s, charged, k + 1, end);
    }
  }

  lemma ScanWholeSound(owner: Owner, options: Options, file: File, evidence: Option<Boundary>, final: bool, p: Progress,
                       s: Seg, ledger: Ledger, before: seq<Placed>)
    requires SegOk(s) && s.whole && file.number == s.number && file.bytes == Content(owner, s)
    requires evidence.None? || (evidence.value == BoundaryOf(owner, s) && Fenced(s))
    requires p.members == ShownAll(ledger, before)
    requires SEGMENT_HEADER <= |file.bytes| && (evidence.Some? ==> SEGMENT_HEADER <= evidence.value.end <= |file.bytes|)
    requires ScanWhole(owner, options, file, evidence, final, p).Ok?
    ensures ScanWhole(owner, options, file, evidence, final, p).value ==
      Progress(ShownAll(ledger, before + Places(s.number, s.frames)), p.charged + ENTRY_CHARGE * |Summary(s.frames)|,
               p.storage,
               Some(Next(s)), p.segments + [SegmentOf(s)], p.rotate || (final && Fenced(s)),
               if Fenced(s) && evidence.None? then Some(BoundaryOf(owner, s)) else p.fence)
  {
    hide Content, LegalFrames, Unfinished, Size, Summary, ShownAll, Places, SweepFrames, InspectHeader, Crc32.Checksum;
    WholeHeader(owner, s);
    var end := if evidence.Some? then End(s) else Length(s);
    SweepBegins(ledger, before, s, p.charged);
    SweepRunSound(owner, options, ledger, before, s, p.charged, 0, end);
    Sequences.Neutral(s.frames);
  }

  // The layout a scan relies on.
  predicate Standing(owner: Owner, boundaries: map<nat, Boundary>, files: seq<File>, segs: seq<Seg>) {
    SegsOk(segs) && BoundariesOk(owner, boundaries, segs) && Readable(owner, files, segs)
  }

  lemma ScanFileSound(owner: Owner, options: Options, boundaries: map<nat, Boundary>, ledger: Ledger, base: nat,
                      files: seq<File>, segs: seq<Seg>, k: nat)
    requires Standing(owner, boundaries, files, segs) && k < |segs| && files[k].number <= U64_MAX
    requires ScanFile(owner, options, boundaries, files[k], k + 1 == |files|,
                      ProgressAt(owner, boundaries, ledger, base, segs, k)).Ok?
    ensures ScanFile(owner, options, boundaries, files[k], k + 1 == |files|,
                     ProgressAt(owner, boundaries, ledger, base, segs, k)).value
            == ProgressAt(owner, boundaries, ledger, base, segs, k + 1)
    ensures Storage(segs[..k + 1]) <= options.maxBytes
  {
    hide Storage, Charges, Live, Places, Content, Summary, Size, BoundariesOk, Summaries, ShownAll, CheckBoundary,
         ScanWhole, ScanEmpty, LegalFrames, Unfinished;
    assert InPlace(segs, k);
    SegAccounts(segs, k);
    BoundaryAccepted(owner, boundaries, segs, k, files[k]);
    var s := segs[k];
    assert |files[k].bytes| == Length(s);
    var p := ProgressAt(owner, boundaries, ledger, base, segs, k);
    var q := p.(storage := p.storage + Length(s), charged := p.charged + SEGMENT_CHARGE);
    var evidence := CheckBoundary(boundaries, files[k]).value;
    if s.whole {
      ScanWholeSound(owner, options, files[k], evidence, k + 1 == |files|, q, s, ledger, Live(segs[..k]));
    } else {
      EmptySeg(s, Live(segs[..k]));
      ScanEmptyExact(owner, files[k], evidence, k + 1 == |files|, q, s);
    }
  }

  /** A scan that succeeds has read the whole log, frame by frame. */
  lemma {:induction false} ScanSound(owner: Owner, options: Options, boundaries: map<nat, Boundary>, ledger: Ledger,
                                     base: nat, files: seq<File>, segs: seq<Seg>, k: nat)
    requires Standing(owner, boundaries, files, segs) && k <= |segs|
    requires forall i | 0 <= i < |files| :: files[i].number <= U64_MAX
    requires ScanFiles(owner, options, boundaries, files, k, ProgressAt(owner, boundaries, ledger, base, segs, k)).Ok?
    ensures ScanFiles(owner, options, boundaries, files, k, ProgressAt(owner, boundaries, ledger, base, segs, k)).value
            == ProgressAt(owner, boundaries, ledger, base, segs, |segs|)
    ensures k < |segs| ==> Storage(segs) <= options.maxBytes
    decreases |segs| - k
  {
    hide Content, SegOk, BoundariesOk, ScanFile, ProgressAt, Storage;
    if k < |segs| {
      ScanFileSound(owner, options, boundaries, ledger, base, files, segs, k);
      ScanSound(owner, options, boundaries, ledger, base, files, segs, k + 1);
      Sequences.Neutral(segs);
    }
  }

  // --------------------------------------------------------------- the LSN

  predicate NextFits(p: Progress) { p.next.Some? ==> p.next.value <= U64_MAX }

  lemma FileNextFits(owner: Owner, options: Options, boundaries: map<nat, Boundary>, file: File, final: bool,
                     p: Progress)
    requires file.number <= U64_MAX && NextFits(p)
    ensures ScanFile(owner, options, boundaries, file, final, p).Ok? ==>
      NextFits(ScanFile(owner, options, boundaries, file, final, p).value)
  {
    hide CheckBoundary, SweepFrames, Crc32.Checksum;
  }

  /** Every LSN a scan ends at is representable. */
  lemma {:induction false} ScanNextFits(owner: Owner, options: Options, boundaries: map<nat, Boundary>,
                                        files: seq<File>, k: nat, p: Progress)
    requires k <= |files| && NextFits(p) && forall i | 0 <= i < |files| :: files[i].number <= U64_MAX
    ensures ScanFiles(owner, options, boundaries, files, k, p).Ok? ==>
      NextFits(ScanFiles(owner, options, boundaries, files, k, p).value)
    decreases |files| - k
  {
    hide ScanFile;
    if k < |files| {
      FileNextFits(owner, options, boundaries, files[k], k + 1 == |files|, p);
      var q := ScanFile(owner, options, boundaries, files[k], k + 1 == |files|, p);
      if q.Ok? { ScanNextFits(owner, options, boundaries, files, k + 1, q.value); }
    }
  }
}
