/** The whole scan: file after file, then the finished members. */
module LogScanExact {
  import opened Prelude
  import opened FrameFormat
  import opened FrameRun
  import opened LogLayout
  import opened LogState
  import opened LogScan
  import opened LogScanLaws
  import Sequences

  lemma {:induction false} PlacesSomewhere(number: nat, fs: seq<Frame>)
    requires 1 <= number <= U64_MAX && LegalFrames(fs) && SEGMENT_HEADER + Size(fs) <= U64_MAX
    ensures Somewhere(Places(number, fs))
    decreases |fs|
  {
    if fs != [] {
      hide LegalFrame, FrameLength;
      PlacesSomewhere(number, fs[..|fs| - 1]);
      LegalNumber(Last(fs));
    }
  }

  lemma LegalNumber(f: Frame)
    requires LegalFrame(f)
    ensures f.seqNo <= U64_MAX
  {
    hide InspectRecord;
  }

  lemma {:induction false} LiveSomewhere(segs: seq<Seg>)
    requires SegsOk(segs) && Storage(segs) <= U64_MAX
    ensures Somewhere(Live(segs))
    decreases |segs|
  {
    if segs != [] {
      hide Places, LegalFrames, Unfinished, Size;
      var n := |segs| - 1;
      assert InPlace(segs, n);
      SegsTake(segs, n);
      LiveSomewhere(segs[..n]);
      if segs[n].whole {
        PlacesSomewhere(segs[n].number, segs[n].frames);
      } else {
        NoPlaces(segs[n]);
      }
    }
  }

  lemma NoPlaces(s: Seg)
    requires s.frames == []
    ensures Places(s.number, s.frames) == []
  {
  }

  // What the scan relies on besides the layout.
  predicate Scannable(owner: Owner, options: Options, boundaries: map<nat, Boundary>, ledger: Ledger, base: nat,
                      files: seq<File>, segs: seq<Seg>,
                      accepted: map<Id, seq<Raw>>, safe: nat)
  {
    && SegsOk(segs) && BoundariesOk(owner, boundaries, segs) && Readable(owner, files, segs)
    && Threads(ledger, Live(segs), accepted, safe)
    && Countable(ledger) && Affordable(options, base, segs)
  }

  lemma ScannableAt(owner: Owner, options: Options, boundaries: map<nat, Boundary>, ledger: Ledger, base: nat,
                    files: seq<File>, segs: seq<Seg>,
                    accepted: map<Id, seq<Raw>>, safe: nat, k: nat)
    requires Scannable(owner, options, boundaries, ledger, base, files, segs, accepted, safe) && k < |segs|
    ensures SegOk(segs[k]) && files[k].number == segs[k].number && files[k].bytes == Content(owner, segs[k])
    ensures if k == 0 then segs[k].whole || segs[k].first == 1 else Next(segs[k - 1]) == segs[k].first
    ensures Storage(segs[..k]) + Length(segs[k]) <= options.maxBytes <= U64_MAX
    ensures base + Charges(segs[..k]) + SEGMENT_CHARGE <= U64_MAX
    ensures Room(options, segs[k], base + Charges(segs[..k]) + SEGMENT_CHARGE)
    ensures Threads(ledger, Live(segs[..k]) + Places(segs[k].number, segs[k].frames) + Live(segs[k + 1..]), accepted,
                    safe)
    ensures Somewhere(Live(segs[..k]) + Places(segs[k].number, segs[k].frames) + Live(segs[k + 1..]))
  {
    hide Storage, Charges, Live, Places, Threads, Somewhere, Countable, Content, SegOk, BoundariesOk, Summary, Size;
    assert InPlace(segs, k);
    SegAccounts(segs, k);
    LiveSomewhere(segs);
    NextGrows(segs, k, |segs| - 1);
  }

  /** One file at its place in the log is read exactly. */
  lemma ScanFileExact(owner: Owner, options: Options, boundaries: map<nat, Boundary>, ledger: Ledger, base: nat,
                      files: seq<File>, segs: seq<Seg>,
                      accepted: map<Id, seq<Raw>>, safe: nat, k: nat)
    requires Scannable(owner, options, boundaries, ledger, base, files, segs, accepted, safe) && k < |segs|
    ensures files[k].number <= U64_MAX
    ensures ScanFile(owner, options, boundaries, files[k], k + 1 == |files|,
                     ProgressAt(owner, boundaries, ledger, base, segs, k))
            == Ok(ProgressAt(owner, boundaries, ledger, base, segs, k + 1))
  {
    hide Storage, Charges, Live, Places, Threads, Somewhere, Content, Summary, Size, Countable, BoundariesOk, SegsOk,
         Summaries, ShownAll, CheckBoundary, ScanWhole, ScanEmpty, SegOk, Fenced, Room, BoundaryOf;
    ScannableAt(owner, options, boundaries, ledger, base, files, segs, accepted, safe, k);
    SegAccounts(segs, k);
    BoundaryAccepted(owner, boundaries, segs, k, files[k]);
    NumberFits(segs[k]);
    if segs[k].whole {
      WholeFile(owner, options, boundaries, ledger, base, files, segs, accepted, safe, k);
    } else {
      EmptyFile(owner, options, boundaries, ledger, base, files, segs, accepted, safe, k);
    }
  }

  lemma NumberFits(s: Seg)
    requires SegOk(s)
    ensures s.number <= U64_MAX && |s.junk| >= 0
  {
    hide LegalFrames, Unfinished;
  }

  lemma EmptyFile(owner: Owner, options: Options, boundaries: map<nat, Boundary>, ledger: Ledger, base: nat,
                  files: seq<File>, segs: seq<Seg>,
                  accepted: map<Id, seq<Raw>>, safe: nat, k: nat)
    requires Scannable(owner, options, boundaries, ledger, base, files, segs, accepted, safe) && k < |segs|
    requires !segs[k].whole
    requires files[k].number <= U64_MAX
    ensures ScanFile(owner, options, boundaries, files[k], k + 1 == |files|,
                     ProgressAt(owner, boundaries, ledger, base, segs, k))
            == Ok(ProgressAt(owner, boundaries, ledger, base, segs, k + 1))
  {
    hide Storage, Charges, Live, Places, Threads, Somewhere, Content, Summary, Size, Countable, BoundariesOk, SegsOk,
         Summaries, ShownAll, CheckBoundary, ScanWhole, ScanEmpty, Room;
    ScannableAt(owner, options, boundaries, ledger, base, files, segs, accepted, safe, k);
    SegAccounts(segs, k);
    BoundaryAccepted(owner, boundaries, segs, k, files[k]);
    var s := segs[k];
    EmptySeg(s, Live(segs[..k]));
    assert |files[k].bytes| == Length(s);
    var p := ProgressAt(owner, boundaries, ledger, base, segs, k);
    var q := p.(storage := p.storage + Length(s), charged := p.charged + SEGMENT_CHARGE);
    var evidence := CheckBoundary(boundaries, files[k]).value;
    ScanEmptyExact(owner, files[k], evidence, k + 1 == |files|, q, s);
  }

  lemma EmptySeg(s: Seg, before: seq<Placed>)
    requires SegOk(s) && !s.whole
    ensures SegmentCharge(s) == SEGMENT_CHARGE && before + Places(s.number, s.frames) == before
    ensures End(s) == 0 && Length(s) < SEGMENT_HEADER && Fenced(s)
  {
    hide LegalFrames, Unfinished;
    assert Places(s.number, s.frames) == [] && Summary(s.frames) == map[];
    Sequences.Neutral(before);
  }

  lemma WholeFile(owner: Owner, options: Options, boundaries: map<nat, Boundary>, ledger: Ledger, base: nat,
                  files: seq<File>, segs: seq<Seg>,
                  accepted: map<Id, seq<Raw>>, safe: nat, k: nat)
    requires Scannable(owner, options, boundaries, ledger, base, files, segs, accepted, safe) && k < |segs|
    requires segs[k].whole
    requires files[k].number <= U64_MAX
    ensures ScanFile(owner, options, boundaries, files[k], k + 1 == |files|,
                     ProgressAt(owner, boundaries, ledger, base, segs, k))
            == Ok(ProgressAt(owner, boundaries, ledger, base, segs, k + 1))
  {
    hide Storage, Charges, Live, Places, Threads, Somewhere, Content, Summary, Size, Countable, BoundariesOk, SegsOk,
         Summaries, ShownAll, CheckBoundary, ScanWhole, ScanEmpty, Room, SegOk, Fenced;
    ScannableAt(owner, options, boundaries, ledger, base, files, segs, accepted, safe, k);
    SegAccounts(segs, k);
    BoundaryAccepted(owner, boundaries, segs, k, files[k]);
    var s := segs[k];
    assert |files[k].bytes| == Length(s) >= SEGMENT_HEADER;
    var p := ProgressAt(owner, boundaries, ledger, base, segs, k);
    var q := p.(storage := p.storage + Length(s), charged := p.charged + SEGMENT_CHARGE);
    var evidence := CheckBoundary(boundaries, files[k]).value;
    ScanWholeExact(owner, options, files[k], evidence, k + 1 == |files|, q, s, ledger, Live(segs[..k]),
                   Live(segs[k + 1..]), accepted, safe);
  }

  /** The scan of a settled log accepts exactly its whole frames. */
  lemma {:induction false} ScanExact(owner: Owner, options: Options, boundaries: map<nat, Boundary>, ledger: Ledger,
                                     base: nat, files: seq<File>, segs: seq<Seg>,
                                     accepted: map<Id, seq<Raw>>, safe: nat, k: nat)
    requires Scannable(owner, options, boundaries, ledger, base, files, segs, accepted, safe) && k <= |segs|
    ensures forall i | 0 <= i < |files| :: files[i].number <= U64_MAX
    ensures ScanFiles(owner, options, boundaries, files, k, ProgressAt(owner, boundaries, ledger, base, segs, k))
            == Ok(ProgressAt(owner, boundaries, ledger, base, segs, |segs|))
    decreases |segs| - k
  {
    hide Threads, Countable, Affordable, Content, SegOk, BoundariesOk, ScanFile, ProgressAt;
    forall i | 0 <= i < |files| ensures files[i].number <= U64_MAX {
      assert InPlace(segs, i);
      NumberFits(segs[i]);
    }
    if k < |segs| {
      assert InPlace(segs, k);
      ScanFileExact(owner, options, boundaries, ledger, base, files, segs, accepted, safe, k);
      ScanExact(owner, options, boundaries, ledger, base, files, segs, accepted, safe, k + 1);
    }
  }
}
