/**
 Recovery on any directory at all: whatever the scan accepts is a log.

 Nothing is assumed of the files, the boundary records or the registry. An accepted
 directory consists of segments of whole, numbered frames; every member's frames form
 a thread that continues its authority; and the progress is what those segments show.
 */
module LogScanFinds {
  import opened Prelude
  import opened FrameFormat
  import opened FrameRun
  import opened LogLayout
  import opened LogState
  import opened LogScan
  import opened LogScanLaws
  import opened LogScanSound
  import opened Recovery
  import Crc32
  import Sequences

  // ------------------------------------------------------------ one thread

  // The last record of a member that its authority accounts for.
  function Authorized(ledger: Ledger, d: Id): nat {
    if d in ledger.retirements then ledger.retirements[d]
    else if d in ledger.manifests then |ledger.manifests[d]| else 0
  }

  /**
   The frames that recovery may find of a member: a linked thread that leaves no gap behind
   its authority or its archive release, and none at all above a retirement.
   */
  predicate Recoverable(ledger: Ledger, d: Id, t: seq<Placed>) {
    && Thread(t)
    && (t != [] ==> t[0].frame.seqNo <= Authorized(ledger, d) + 1)
    && (d in ledger.retirements ==> forall p | p in t :: p.frame.seqNo <= ledger.retirements[d])
    && (d !in ledger.retirements && d in ledger.archives && t != [] ==>
          var released := ledger.archives[d].released.seqNo;
          Last(t).frame.seqNo > released ==> t[0].frame.seqNo <= released + 1)
  }

  // Frames lie behind the header of their segment.
  predicate Sited(ps: seq<Placed>) { forall p | p in ps :: p.at.offset >= SEGMENT_HEADER }

  lemma {:induction false} ShownFacts(base: Member, t: seq<Placed>)
    requires Thread(t) && (base.archive.Some? ==> base.archive.value.latest == base.archive.value.released)
    ensures var m := Shown(base, t);
      && m.retired == base.retired && m.checkpoint == base.checkpoint && (t == [] ==> m == base)
      && (t != [] ==> m.latest == Last(t).at && m.seqNo == Last(t).frame.seqNo)
      && m.archive.Some? == base.archive.Some?
      && (m.archive.Some? ==>
            var released := base.archive.value.released;
            && m.archive.value.released == released
            && m.archive.value.latest.seqNo ==
               if t != [] && Last(t).frame.seqNo > released.seqNo then Last(t).frame.seqNo else released.seqNo)
    decreases |t|
  {
    if t != [] {
      var n := |t| - 1;
      ThreadTake(t, n);
      ShownFacts(base, t[..n]);
      if n > 0 { ThreadNumbers(t, n - 1, n); }
    }
  }

  /** A frame that is admitted continues its member's thread. */
  lemma AdmitFinds(ledger: Ledger, d: Id, t: seq<Placed>, p: Placed)
    requires d in ledger.manifests && Recoverable(ledger, d, t) && Sited(t) && Before(t, p.at, p.frame.lsn)
    requires Admit(Shown(Loaded(ledger, d), t), p.frame, p.at).Ok?
    ensures Recoverable(ledger, d, t + [p])
  {
    hide Thread, Shown;
    var base := Loaded(ledger, d);
    ShownFacts(base, t);
    if t != [] {
      assert Last(t) in t;
      assert Linked(Last(t), p);
      ThreadNumbers(t, 0, |t| - 1);
    }
    ThreadSnoc(t, p);
    assert Last(t + [p]) == p && (t != [] ==> (t + [p])[0] == t[0]);
  }

  // Every member's frames may be found by recovery.
  ghost predicate AllRecoverable(ledger: Ledger, ps: seq<Placed>) {
    && Sited(ps) && (forall p | p in ps :: p.frame.id in ledger.manifests)
    && forall d | d in ledger.manifests :: Recoverable(ledger, d, Of(ps, d))
  }

  lemma FoundNext(ledger: Ledger, ps: seq<Placed>, p: Placed)
    requires AllRecoverable(ledger, ps) && Before(ps, p.at, p.frame.lsn) && p.at.offset >= SEGMENT_HEADER
    requires p.frame.id in ledger.manifests
    requires Admit(Shown(Loaded(ledger, p.frame.id), Of(ps, p.frame.id)), p.frame, p.at).Ok?
    ensures AllRecoverable(ledger, ps + [p])
  {
    hide Of, Admit, Recoverable, Shown, Loaded;
    var d := p.frame.id;
    forall q | q in Of(ps, d) ensures q in ps { OfMembers(ps, d, q); }
    AdmitFinds(ledger, d, Of(ps, d), p);
    forall e | e in ledger.manifests ensures Recoverable(ledger, e, Of(ps + [p], e)) {
      OfSnoc(ps, p, e);
      Sequences.Neutral(Of(ps, e));
    }
  }

  // ------------------------------------------------------------ one segment

  // Frames read so far from a segment, and what the sweep knows after them.
  ghost predicate Read(ledger: Ledger, before: seq<Placed>, number: nat, first: nat, bytes: seq<Byte>, charged: nat,
                       fs: seq<Frame>, s: Sweep) {
    && LegalFrames(fs) && (forall k | 0 <= k < |fs| :: fs[k].lsn == first + k)
    && s == SweepAt(ledger, before, Seg(number, first, fs, true, []), charged, |fs|)
    && SEGMENT_HEADER + Size(fs) <= |bytes| && bytes[SEGMENT_HEADER..SEGMENT_HEADER + Size(fs)] == EncodeAll(fs)
    && AllRecoverable(ledger, before + Places(number, fs))
    && Before(before, Pointer(number, SEGMENT_HEADER), first)
  }

  lemma ReadOne(options: Options, ledger: Ledger, before: seq<Placed>, number: nat, first: nat, bytes: seq<Byte>,
                charged: nat, fs: seq<Frame>, s: Sweep, f: Frame)
    requires Read(ledger, before, number, first, bytes, charged, fs, s) && LegalFrame(f)
    requires s.offset + FrameLength(f) <= |bytes| && bytes[s.offset..s.offset + FrameLength(f)] == EncodeFrame(f)
    requires SweepFrame(options, number, s, f).Ok?
    ensures Read(ledger, before, number, first, bytes, charged, fs + [f], SweepFrame(options, number, s, f).value)
    ensures SweepFrame(options, number, s, f).value.charged <= options.indexBytes
  {
    hide LegalFrame, FrameLength, EncodeFrame, Size, EncodeAll, Places, Summary, ShownAll, SweepFrame, Before,
         AllRecoverable;
    SweptFrame(options, number, s, f);
    var seg := Seg(number, first, fs + [f], true, []);
    Sequences.Unsnoc(fs, f);
    Sequences.Neutral(fs);
    Sequences.Neutral(fs + [f]);
    SameSweep(ledger, before, Seg(number, first, fs, true, []), seg, charged);
    SweepStepSound(options, ledger, before, seg, charged, |fs|);
    RunSnoc(fs, f);
    RunJoin(bytes, SEGMENT_HEADER, SEGMENT_HEADER + Size(fs), SEGMENT_HEADER + Size(fs) + FrameLength(f));
    var p := Placed(f, Pointer(number, SEGMENT_HEADER + Size(fs)));
    PlacesSnoc(number, fs, f);
    Sequences.Associative(before, Places(number, fs), [p]);
    ReadAdmits(options, ledger, before + Places(number, fs), number, s, f);
    BeforeHere(before, number, first, fs);
    FoundNext(ledger, before + Places(number, fs), p);
  }

  lemma RunJoin(bytes: seq<Byte>, i: nat, j: nat, k: nat)
    requires i <= j <= k <= |bytes|
    ensures bytes[i..j] + bytes[j..k] == bytes[i..k]
  {
  }

  lemma SameSweep(ledger: Ledger, before: seq<Placed>, s: Seg, q: Seg, charged: nat)
    requires s.number == q.number && s.first == q.first && s.frames <= q.frames
    ensures SweepAt(ledger, before, s, charged, |s.frames|) == SweepAt(ledger, before, q, charged, |s.frames|)
  {
    hide ShownAll, Places, Summary, Size;
    assert s.frames[..|s.frames|] == q.frames[..|s.frames|];
  }

  lemma SweptFrame(options: Options, number: nat, s: Sweep, f: Frame)
    requires SweepFrame(options, number, s, f).Ok?
    ensures f.lsn == s.next && f.id in s.members
    ensures Admit(s.members[f.id], f, Pointer(number, s.offset)).Ok?
    ensures SweepFrame(options, number, s, f).value.charged <= options.indexBytes
  {
    hide Admit, FrameLength;
  }

  lemma ReadAdmits(options: Options, ledger: Ledger, ps: seq<Placed>, number: nat, s: Sweep, f: Frame)
    requires s.members == ShownAll(ledger, ps) && SweepFrame(options, number, s, f).Ok?
    ensures f.id in ledger.manifests && f.lsn == s.next
    ensures Admit(Shown(Loaded(ledger, f.id), Of(ps, f.id)), f, Pointer(number, s.offset)).Ok?
  {
    hide Admit, FrameLength, Shown, Of, Loaded;
    SweptFrame(options, number, s, f);
  }

  lemma BeforeHere(before: seq<Placed>, number: nat, first: nat, fs: seq<Frame>)
    requires Before(before, Pointer(number, SEGMENT_HEADER), first)
    requires forall k | 0 <= k < |fs| :: fs[k].lsn == first + k
    ensures Before(before + Places(number, fs), Pointer(number, SEGMENT_HEADER + Size(fs)), first + |fs|)
  {
    hide Before, Places, Size;
    var at, here := Pointer(number, SEGMENT_HEADER), Pointer(number, SEGMENT_HEADER + Size(fs));
    PlacesBefore(number, first, fs);
    BeforeLater(before, at, first, here, first + |fs|);
    BeforeConcat(before, Places(number, fs), here, first + |fs|);
  }

  // What the loop of one segment reads: whole frames, then what looks like an interrupted write.
  lemma {:induction false} SweepFinds(options: Options, ledger: Ledger, before: seq<Placed>, number: nat, first: nat,
                                      bytes: seq<Byte>, end: nat, charged: nat, fs: seq<Frame>, s: Sweep)
    returns (all: seq<Frame>)
    requires Read(ledger, before, number, first, bytes, charged, fs, s) && s.offset <= end <= |bytes|
    requires SweepFrames(options, number, bytes, end, s).Ok? && (fs != [] ==> s.charged <= options.indexBytes)
    ensures var r := SweepFrames(options, number, bytes, end, s).value;
      && Read(ledger, before, number, first, bytes, charged, all, r) && r.offset <= end
      && Unfinished(bytes[r.offset..end]) && (all != [] ==> r.charged <= options.indexBytes)
    decreases end - s.offset
  {
    hide Unfinished, Inspect, SweepFrame, FrameLength, LegalFrame, EncodeFrame, Read;
    var rest := bytes[s.offset..end];
    if Unfinished(rest) {
      all := fs;
    } else {
      var f := FrameAt(rest);
      assert bytes[s.offset..s.offset + FrameLength(f)] == EncodeFrame(f);
      SweepFrameSound(options, number, s, f);
      ReadOne(options, ledger, before, number, first, bytes, charged, fs, s, f);
      all := SweepFinds(options, ledger, before, number, first, bytes, end, charged, fs + [f],
                        SweepFrame(options, number, s, f).value);
    }
  }

  lemma FrameAt(rest: seq<Byte>) returns (f: Frame)
    requires !Unfinished(rest) && Inspect(rest[..FrameLen(rest[..4]).value]).Ok?
    ensures Inspect(rest[..FrameLen(rest[..4]).value]) == Ok(f) && LegalFrame(f)
    ensures 0 < FrameLength(f) == FrameLen(rest[..4]).value <= |rest| && rest[..FrameLength(f)] == EncodeFrame(f)
  {
    var length := FrameLen(rest[..4]).value;
    f := Inspect(rest[..length]).value;
    FrameIff(rest[..length], f);
    InspectedLength(rest[..length]);
  }

  // --------------------------------------------------------------- one file

  /**
   The i-th file is the i-th segment. Only the last may be torn, unless its boundary record
   names its length, checksum, valid end and next number.
   */
  predicate FoundAt(owner: Owner, boundaries: map<nat, Boundary>, files: seq<File>, segs: seq<Seg>, i: nat)
    requires i < |segs| <= |files|
  {
    var s := segs[i];
    && files[i].number == s.number && files[i].bytes == Content(owner, s) && s.first > 0
    && LegalFrames(s.frames) && (forall k | 0 <= k < |s.frames| :: s.frames[k].lsn == s.first + k)
    && (if i == 0 then s.whole || s.first == 1 else s.number == segs[i - 1].number + 1 && s.first == Next(segs[i - 1]))
    && (!s.whole ==> s.frames == [])
    && if s.number in boundaries then boundaries[s.number] == BoundaryOf(owner, s)
       else
         && (if s.whole then Unfinished(s.junk) else |s.junk| < SEGMENT_HEADER)
         && (i + 1 < |files| ==> !Fenced(s))
  }

  predicate Found(owner: Owner, boundaries: map<nat, Boundary>, files: seq<File>, segs: seq<Seg>) {
    |segs| <= |files| && forall i | 0 <= i < |segs| :: FoundAt(owner, boundaries, files, segs, i)
  }

  // What the scan knows after these segments.
  ghost predicate Reached(owner: Owner, boundaries: map<nat, Boundary>, ledger: Ledger, base: nat, segs: seq<Seg>,
                          ended: bool, p: Progress) {
    && p.members == ShownAll(ledger, Live(segs)) && p.charged == base + Charges(segs) && p.storage == Storage(segs)
    && p.segments == Summaries(segs) && p.next == (if segs == [] then None else Some(Next(Last(segs))))
    && p.rotate == (ended && segs != [] && (Fenced(Last(segs)) || Last(segs).number in boundaries))
    && p.fence == if ended && segs != [] && Fenced(Last(segs)) && Last(segs).number !in boundaries
                  then Some(BoundaryOf(owner, Last(segs))) else None
  }

  // The budgets hold where the scan looks at them.
  predicate Budgeted(options: Options, base: nat, segs: seq<Seg>, i: nat)
    requires i < |segs|
  {
    && Storage(segs[..i + 1]) <= options.maxBytes
    && (segs[i].frames != [] ==> base + Charges(segs[..i + 1]) <= options.indexBytes)
  }

  // A file with a header.
  lemma WholeFinds(owner: Owner, options: Options, ledger: Ledger, before: seq<Placed>, file: File,
                   evidence: Option<Boundary>, final: bool, p: Progress) returns (s: Seg)
    requires file.number <= U64_MAX && SEGMENT_HEADER <= |file.bytes|
    requires evidence.Some? ==> SEGMENT_HEADER <= evidence.value.end <= |file.bytes|
    requires p.members == ShownAll(ledger, before) && AllRecoverable(ledger, before)
    requires p.next.None? ==> before == []
    requires p.next.Some? ==> Before(before, Pointer(file.number, SEGMENT_HEADER), p.next.value)
    requires ScanWhole(owner, options, file, evidence, final, p).Ok?
    ensures s.whole && s.number == file.number && s.first > 0 && file.bytes == Content(owner, s)
    ensures p.next.Some? ==> s.first == p.next.value
    ensures LegalFrames(s.frames) && (forall k | 0 <= k < |s.frames| :: s.frames[k].lsn == s.first + k)
    ensures if evidence.Some? then evidence.value.end == End(s) && evidence.value.next == Next(s)
            else Unfinished(s.junk) && (s.junk != [] ==> final)
    ensures AllRecoverable(ledger, before + Places(s.number, s.frames))
    ensures s.frames != [] ==> p.charged + ENTRY_CHARGE * |Summary(s.frames)| <= options.indexBytes
    ensures var torn := evidence.None? && s.junk != [];
      ScanWhole(owner, options, file, evidence, final, p).value ==
      Progress(ShownAll(ledger, before + Places(s.number, s.frames)), p.charged + ENTRY_CHARGE * |Summary(s.frames)|,
               p.storage, Some(Next(s)), p.segments + [SegmentOf(s)], p.rotate || torn || (final && evidence.Some?),
               if torn then Some(BoundaryOf(owner, s)) else p.fence)
  {
    hide AllRecoverable, Before, ShownAll, SweepFrames, InspectHeader, Unfinished, Crc32.Checksum, EncodeHeader,
         EncodeAll, Size, Places, Summary, LegalFrame, SweepAt, Read;
    var bytes, number := file.bytes, file.number;
    var end := if evidence.Some? then evidence.value.end else |bytes|;
    var first := InspectHeader(bytes[..SEGMENT_HEADER], owner, number).value;
    HeaderIff(bytes[..SEGMENT_HEADER], owner, number, first);
    var start := Sweep(p.members, map[], p.charged, first, SEGMENT_HEADER);
    if before == [] { NothingBefore(number, first); }
    ReadBegins(ledger, before, number, first, bytes, p.charged);
    var fs := SweepFinds(options, ledger, before, number, first, bytes, end, p.charged, [], start);
    var r := SweepFrames(options, number, bytes, end, start).value;
    ReadIs(ledger, before, number, first, bytes, p.charged, fs, r);
    var junk := bytes[SEGMENT_HEADER + Size(fs)..];
    s := Seg(number, first, fs, true, junk);
    SplitContent(bytes, SEGMENT_HEADER + Size(fs));
    if evidence.None? { assert bytes[r.offset..end] == junk; }
  }

  lemma NothingBefore(number: nat, first: nat)
    ensures Before([], Pointer(number, SEGMENT_HEADER), first)
  {
  }

  lemma SplitContent(bytes: seq<Byte>, n: nat)
    requires SEGMENT_HEADER <= n <= |bytes|
    ensures bytes[..SEGMENT_HEADER] + bytes[SEGMENT_HEADER..n] + bytes[n..] == bytes
  {
  }

  lemma ReadBegins(ledger: Ledger, before: seq<Placed>, number: nat, first: nat, bytes: seq<Byte>, charged: nat)
    requires SEGMENT_HEADER <= |bytes| && AllRecoverable(ledger, before)
    requires Before(before, Pointer(number, SEGMENT_HEADER), first)
    ensures Read(ledger, before, number, first, bytes, charged, [],
                 Sweep(ShownAll(ledger, before), map[], charged, first, SEGMENT_HEADER))
  {
    hide AllRecoverable, ShownAll, Before;
    SweepBegins(ledger, before, Seg(number, first, [], true, []), charged);
    assert Places(number, []) == [] && Size([]) == 0 && EncodeAll([]) == [];
    Sequences.Neutral(before);
  }

  lemma ReadIs(ledger: Ledger, before: seq<Placed>, number: nat, first: nat, bytes: seq<Byte>, charged: nat,
               fs: seq<Frame>, s: Sweep)
    requires Read(ledger, before, number, first, bytes, charged, fs, s)
    ensures LegalFrames(fs) && (forall k | 0 <= k < |fs| :: fs[k].lsn == first + k)
    ensures s == Sweep(ShownAll(ledger, before + Places(number, fs)), Summary(fs),
                       charged + ENTRY_CHARGE * |Summary(fs)|, first + |fs|, SEGMENT_HEADER + Size(fs))
    ensures SEGMENT_HEADER + Size(fs) <= |bytes| && bytes[SEGMENT_HEADER..SEGMENT_HEADER + Size(fs)] == EncodeAll(fs)
    ensures AllRecoverable(ledger, before + Places(number, fs))
  {
    hide AllRecoverable, ShownAll, Places, Summary, Size, EncodeAll, LegalFrame, Before;
    assert fs[..|fs|] == fs;
  }

  // ---------------------------------------------------------- the directory

  // Whatever was read so far lies before the next file.
  predicate Trails(segs: seq<Seg>) {
    segs != [] ==> Before(Live(segs), Pointer(Last(segs).number + 1, SEGMENT_HEADER), Next(Last(segs)))
  }

  // The first k files, read.
  ghost predicate Scanned(owner: Owner, options: Options, boundaries: map<nat, Boundary>, ledger: Ledger, base: nat,
                          files: seq<File>, segs: seq<Seg>, p: Progress) {
    && Found(owner, boundaries, files, segs) && Reached(owner, boundaries, ledger, base, segs, |segs| == |files|, p)
    && AllRecoverable(ledger, Live(segs)) && Trails(segs)
    && forall i | 0 <= i < |segs| :: Budgeted(options, base, segs, i)
  }

  // How the boundary record of a file decides what the scan makes of it.
  lemma Evidence(owner: Owner, boundaries: map<nat, Boundary>, file: File)
    requires CheckBoundary(boundaries, file).Ok?
    ensures var e := CheckBoundary(boundaries, file).value;
      && e.Some? == (file.number in boundaries)
      && (e.Some? ==> e.value == boundaries[file.number] && e.value.length == |file.bytes|
                      && e.value.crc == Crc32.Checksum(file.bytes)
                      && e.value.end <= |file.bytes| && (e.value.end != 0 ==> SEGMENT_HEADER <= e.value.end))
  {
    hide Crc32.Checksum;
  }

  // The segment that one accepted file is.
  predicate FileIs(owner: Owner, boundaries: map<nat, Boundary>, file: File, final: bool, next: Option<nat>, s: Seg) {
    && file.number == s.number && file.bytes == Content(owner, s) && s.first > 0
    && LegalFrames(s.frames) && (forall k | 0 <= k < |s.frames| :: s.frames[k].lsn == s.first + k)
    && (match next case None => s.whole || s.first == 1 case Some(n) => s.first == n)
    && (!s.whole ==> s.frames == [])
    && if s.number in boundaries then boundaries[s.number] == BoundaryOf(owner, s)
       else
         && (if s.whole then Unfinished(s.junk) else |s.junk| < SEGMENT_HEADER)
         && (!final ==> !Fenced(s))
  }

  ghost predicate FileReached(owner: Owner, options: Options, boundaries: map<nat, Boundary>, ledger: Ledger,
                              before: seq<Placed>, final: bool, p: Progress, s: Seg, q: Progress) {
    && AllRecoverable(ledger, before + Places(s.number, s.frames))
    && q.storage == p.storage + Length(s) <= options.maxBytes
    && q.charged == p.charged + SegmentCharge(s) && (s.frames != [] ==> q.charged <= options.indexBytes)
    && q.members == ShownAll(ledger, before + Places(s.number, s.frames))
    && q.segments == p.segments + [SegmentOf(s)] && q.next == Some(Next(s))
    && q.rotate == (final && (Fenced(s) || s.number in boundaries))
    && q.fence == if final && Fenced(s) && s.number !in boundaries then Some(BoundaryOf(owner, s)) else None
  }

  /** Whatever one file is accepted as is a segment that continues the ones before it. */
  lemma FileFinds(owner: Owner, options: Options, boundaries: map<nat, Boundary>, ledger: Ledger, before: seq<Placed>,
                  file: File, final: bool, p: Progress) returns (s: Seg)
    requires file.number <= U64_MAX && p.members == ShownAll(ledger, before) && AllRecoverable(ledger, before)
    requires p.next.None? ==> before == []
    requires p.next.Some? ==> p.next.value > 0 && Before(before, Pointer(file.number, SEGMENT_HEADER), p.next.value)
    requires !p.rotate && p.fence.None?
    requires ScanFile(owner, options, boundaries, file, final, p).Ok?
    ensures FileIs(owner, boundaries, file, final, p.next, s)
    ensures FileReached(owner, options, boundaries, ledger, before, final, p, s,
                        ScanFile(owner, options, boundaries, file, final, p).value)
  {
    hide AllRecoverable, Before, ShownAll, Unfinished, Crc32.Checksum, EncodeHeader, EncodeAll, Size, Places, Summary,
         LegalFrame, ScanWhole, CheckBoundary, InspectHeader;
    Evidence(owner, boundaries, file);
    var evidence := CheckBoundary(boundaries, file).value;
    var q := p.(storage := p.storage + |file.bytes|, charged := p.charged + SEGMENT_CHARGE);
    if (evidence.Some? && evidence.value.end == 0) || |file.bytes| < SEGMENT_HEADER {
      s := Seg(file.number, if p.next.Some? then p.next.value else 1, [], false, file.bytes);
      NoFrames(s.number, before);
      EmptyContent(owner, s);
    } else {
      s := WholeFinds(owner, options, ledger, before, file, evidence, final, q);
    }
  }

  lemma NoFrames(number: nat, before: seq<Placed>)
    ensures before + Places(number, []) == before && Summary([]) == map[] && Size([]) == 0 && LegalFrames([])
  {
    Sequences.Neutral(before);
    assert Places(number, []) == [];
  }

  lemma EmptyContent(owner: Owner, s: Seg)
    requires !s.whole
    ensures Content(owner, s) == s.junk
  {
    hide EncodeHeader, EncodeAll;
    Sequences.Neutral(s.junk);
  }

  lemma FoundMore(owner: Owner, boundaries: map<nat, Boundary>, files: seq<File>, segs: seq<Seg>, next: Option<nat>,
                  s: Seg)
    requires Found(owner, boundaries, files, segs) && |segs| < |files|
    requires segs != [] ==> files[|segs| - 1].number + 1 == files[|segs|].number
    requires next == if segs == [] then None else Some(Next(Last(segs)))
    requires FileIs(owner, boundaries, files[|segs|], |segs| + 1 == |files|, next, s)
    ensures Found(owner, boundaries, files, segs + [s])
  {
    hide Unfinished, Content, LegalFrames, BoundaryOf, Fenced, Next;
    var more := segs + [s];
    Sequences.Unsnoc(segs, s);
    forall i | 0 <= i < |more| ensures FoundAt(owner, boundaries, files, more, i) {
      if i < |segs| {
        assert FoundAt(owner, boundaries, files, segs, i);
      } else if i > 0 {
        assert FoundAt(owner, boundaries, files, segs, i - 1);
      }
    }
  }

  lemma BudgetedMore(options: Options, base: nat, segs: seq<Seg>, s: Seg)
    requires forall i | 0 <= i < |segs| :: Budgeted(options, base, segs, i)
    requires Storage(segs) + Length(s) <= options.maxBytes
    requires s.frames != [] ==> base + Charges(segs) + SegmentCharge(s) <= options.indexBytes
    ensures forall i | 0 <= i < |segs + [s]| :: Budgeted(options, base, segs + [s], i)
  {
    hide Storage, Charges, Length, SegmentCharge;
    var more := segs + [s];
    AccountSnoc(segs, s);
    Sequences.Neutral(more);
    forall i | 0 <= i < |more| ensures Budgeted(options, base, more, i) {
      if i < |segs| {
        assert Budgeted(options, base, segs, i);
        assert more[..i + 1] == segs[..i + 1];
      }
    }
  }

  lemma ScannedMore(owner: Owner, options: Options, boundaries: map<nat, Boundary>, ledger: Ledger, base: nat,
                    files: seq<File>, segs: seq<Seg>, p: Progress, s: Seg, q: Progress)
    requires Scanned(owner, options, boundaries, ledger, base, files, segs, p) && |segs| < |files|
    requires segs != [] ==> files[|segs| - 1].number + 1 == files[|segs|].number
    requires FileIs(owner, boundaries, files[|segs|], |segs| + 1 == |files|, p.next, s)
    requires FileReached(owner, options, boundaries, ledger, Live(segs), |segs| + 1 == |files|, p, s, q)
    ensures Scanned(owner, options, boundaries, ledger, base, files, segs + [s], q)
  {
    hide AllRecoverable, Before, ShownAll, Unfinished, Content, Live, Places, LegalFrames, Storage, Charges, Length,
         SegmentCharge, SegmentOf, BoundaryOf, Found, Budgeted, Fenced;
    FoundMore(owner, boundaries, files, segs, p.next, s);
    BudgetedMore(options, base, segs, s);
    LiveSnoc(segs, s);
    AccountSnoc(segs, s);
    FoundLast(owner, boundaries, files, segs, s);
    TrailsOn(segs, s);
    Sequences.Unsnoc(segs, s);
    assert Summaries(segs + [s]) == Summaries(segs) + [SegmentOf(s)];
  }

  lemma FoundLast(owner: Owner, boundaries: map<nat, Boundary>, files: seq<File>, segs: seq<Seg>, s: Seg)
    requires Found(owner, boundaries, files, segs + [s])
    ensures |segs| < |files|
    ensures segs != [] ==> s.number == Last(segs).number + 1 && s.first == Next(Last(segs))
  {
    hide Unfinished, Content, LegalFrames, BoundaryOf, Fenced;
    assert FoundAt(owner, boundaries, files, segs + [s], |segs|);
  }

  lemma TrailsOn(segs: seq<Seg>, s: Seg)
    requires Trails(segs) && (forall k | 0 <= k < |s.frames| :: s.frames[k].lsn == s.first + k)
    requires segs != [] ==> s.number == Last(segs).number + 1 && s.first == Next(Last(segs))
    ensures Trails(segs + [s])
  {
    hide Before, Live, Places, Size;
    LiveSnoc(segs, s);
    Sequences.Unsnoc(segs, s);
    if segs == [] {
      LiveNone(segs);
      NothingBefore(s.number, s.first);
    }
    BeforeHere(Live(segs), s.number, s.first, s.frames);
    BeforeLater(Live(segs + [s]), Pointer(s.number, SEGMENT_HEADER + Size(s.frames)), Next(s),
                Pointer(s.number + 1, SEGMENT_HEADER), Next(s));
  }

  lemma {:induction false} ScanOn(owner: Owner, options: Options, boundaries: map<nat, Boundary>, ledger: Ledger,
                                  base: nat, files: seq<File>, done: seq<Seg>, p: Progress) returns (segs: seq<Seg>)
    requires Scanned(owner, options, boundaries, ledger, base, files, done, p)
    requires forall i | 0 <= i < |files| :: files[i].number <= U64_MAX
    requires ScanFiles(owner, options, boundaries, files, |done|, p).Ok?
    ensures |segs| == |files|
    ensures Scanned(owner, options, boundaries, ledger, base, files, segs,
                    ScanFiles(owner, options, boundaries, files, |done|, p).value)
    decreases |files| - |done|
  {
    hide AllRecoverable, Before, ShownAll, Content, Live, LegalFrames, Storage, Charges, SegmentOf, BoundaryOf,
         ScanFile, FileIs, FileReached, Budgeted, FoundAt;
    if |done| == |files| {
      segs := done;
    } else {
      var k := |done|;
      var final := k + 1 == |files|;
      StandsReady(owner, options, boundaries, ledger, base, files, done, p);
      var s := FileFinds(owner, options, boundaries, ledger, Live(done), files[k], final, p);
      var q := ScanFile(owner, options, boundaries, files[k], final, p).value;
      ScannedMore(owner, options, boundaries, ledger, base, files, done, p, s, q);
      segs := ScanOn(owner, options, boundaries, ledger, base, files, done + [s], q);
    }
  }

  lemma StandsReady(owner: Owner, options: Options, boundaries: map<nat, Boundary>, ledger: Ledger, base: nat,
                    files: seq<File>, done: seq<Seg>, p: Progress)
    requires Scanned(owner, options, boundaries, ledger, base, files, done, p) && |done| < |files|
    requires done != [] ==> files[|done| - 1].number + 1 == files[|done|].number
    ensures !p.rotate && p.fence.None? && p.members == ShownAll(ledger, Live(done))
    ensures AllRecoverable(ledger, Live(done))
    ensures p.next.None? ==> Live(done) == []
    ensures p.next.Some? ==>
      p.next.value > 0 && Before(Live(done), Pointer(files[|done|].number, SEGMENT_HEADER), p.next.value)
  {
    hide AllRecoverable, Before, ShownAll, Content, LegalFrames, Storage, Charges, SegmentOf, BoundaryOf, Budgeted;
    if done == [] { LiveNone(done); } else { assert FoundAt(owner, boundaries, files, done, |done| - 1); }
  }

  /** Whatever directory the scan accepts holds a log, and the progress is what that log shows. */
  lemma ScanFinds(owner: Owner, options: Options, boundaries: map<nat, Boundary>, ledger: Ledger, base: nat,
                  files: seq<File>) returns (segs: seq<Seg>)
    requires forall i | 0 <= i < |files| :: files[i].number <= U64_MAX
    requires ScanFiles(owner, options, boundaries, files, 0, Begin(AllLoaded(ledger), base)).Ok?
    ensures |segs| == |files| && Found(owner, boundaries, files, segs) && AllRecoverable(ledger, Live(segs))
    ensures forall i | 0 <= i < |segs| :: Budgeted(options, base, segs, i)
    ensures Reached(owner, boundaries, ledger, base, segs, true,
                    ScanFiles(owner, options, boundaries, files, 0, Begin(AllLoaded(ledger), base)).value)
  {
    hide ScanFiles, Loaded, FoundAt, Budgeted, Recoverable;
    NothingShown(ledger);
    assert Scanned(owner, options, boundaries, ledger, base, files, [], Begin(AllLoaded(ledger), base));
    segs := ScanOn(owner, options, boundaries, ledger, base, files, [], Begin(AllLoaded(ledger), base));
  }

  lemma NothingShown(ledger: Ledger)
    ensures ShownAll(ledger, Live([])) == AllLoaded(ledger)
    ensures AllRecoverable(ledger, Live([])) && Charges([]) == 0 && Storage([]) == 0 && Summaries([]) == []
  {
    hide Loaded;
    LiveNone([]);
    assert forall d :: Of([], d) == [];
  }

  /** A file whose boundary record is accepted has no byte that could change unnoticed. */
  lemma ChangedFile(boundaries: map<nat, Boundary>, file: File, i: nat, x: Byte)
    requires file.number in boundaries && CheckBoundary(boundaries, file).Ok?
    requires i < |file.bytes| && file.bytes[i] != x
    ensures CheckBoundary(boundaries, file.(bytes := file.bytes[i := x])).Err?
  {
    hide Crc32.Checksum;
    Crc32.ByteDetected(file.bytes, i, x);
  }
}
