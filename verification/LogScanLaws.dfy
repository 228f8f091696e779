/** Recovery is exact: on a settled log it accepts the whole frames and nothing else. */
module LogScanLaws {
  import opened Prelude
  import opened FrameFormat
  import opened FrameRun
  import opened LogLayout
  import opened LogState
  import opened ThreadLaws
  import opened LogScan
  import Crc32
  import Sequences

  // ------------------------------------------------------- what a member shows

  function After(m: Member, p: Placed): Member {
    m.(latest := p.at, seqNo := p.frame.seqNo, lsn := p.frame.lsn, archive := AfterArchive(m.archive, p))
  }

  function AfterArchive(archive: Option<Protection>, p: Placed): Option<Protection> {
    match archive
    case None => None
    case Some(a) =>
      if p.frame.seqNo <= a.released.seqNo then archive
      else Some(a.(latest := Cursor(p.frame.seqNo, a.latest.offset + |p.frame.raw|)))
  }

  function Shown(base: Member, t: seq<Placed>): Member {
    if t == [] then base else After(Shown(base, t[..|t| - 1]), Last(t))
  }

  function ShownAll(ledger: Ledger, ps: seq<Placed>): map<Id, Member> {
    map d | d in ledger.manifests :: Shown(Loaded(ledger, d), Of(ps, d))
  }

  lemma ShownSnoc(base: Member, t: seq<Placed>, p: Placed)
    ensures Shown(base, t + [p]) == After(Shown(base, t), p)
  {
    Sequences.Unsnoc(t, p);
  }

  // The archive end after a thread prefix.
  function ShownCursor(released: Cursor, t: seq<Placed>, accepted: seq<Raw>): Cursor {
    if t == [] || Last(t).frame.seqNo <= released.seqNo || Last(t).frame.seqNo > |accepted| then released
    else CursorAt(released, accepted, Last(t).frame.seqNo)
  }

  predicate Matches(t: seq<Placed>, accepted: seq<Raw>) {
    forall p | p in t :: 1 <= p.frame.seqNo <= |accepted| && p.frame.raw == accepted[p.frame.seqNo - 1]
  }

  /** A shown member is its authority with the position of its last frame and the archive end there. */
  lemma {:induction false} ShownClosed(base: Member, t: seq<Placed>, accepted: seq<Raw>)
    requires Thread(t) && base.latest == NOWHERE
    requires base.archive.Some? ==>
      && Matches(t, accepted) && base.archive.value.latest == base.archive.value.released
      && (t != [] ==> t[0].frame.seqNo <= base.archive.value.released.seqNo + 1)
    ensures var m := Shown(base, t);
      && m.retired == base.retired && m.checkpoint == base.checkpoint
      && (t == [] ==> m == base)
      && (t != [] ==> m.latest == Last(t).at && m.seqNo == Last(t).frame.seqNo && m.lsn == Last(t).frame.lsn)
      && (base.archive.None? ==> m.archive.None?)
      && (base.archive.Some? ==>
            var p := base.archive.value;
            m.archive == Some(p.(latest := ShownCursor(p.released, t, accepted))))
    decreases |t|
  {
    if t != [] {
      var n := |t| - 1;
      ThreadTake(t, n);
      assert forall p | p in t[..n] :: p in t;
      ShownClosed(base, t[..n], accepted);
      if base.archive.Some? { ShownNext(base.archive.value.released, t, accepted); }
    }
  }

  lemma ShownNext(released: Cursor, t: seq<Placed>, accepted: seq<Raw>)
    requires Thread(t) && t != [] && Matches(t, accepted) && t[0].frame.seqNo <= released.seqNo + 1
    ensures var p, before := Last(t).frame, ShownCursor(released, t[..|t| - 1], accepted);
            ShownCursor(released, t, accepted) ==
            if p.seqNo <= released.seqNo then before else Cursor(p.seqNo, before.offset + |p.raw|)
    ensures Last(t).frame.seqNo > released.seqNo ==>
      ShownCursor(released, t[..|t| - 1], accepted).seqNo + 1 == Last(t).frame.seqNo
  {
    hide Thread, RawBytes;
    var n := |t| - 1;
    var p := t[n].frame;
    assert t[n] in t;
    ThreadNumbers(t, 0, n);
    if n > 0 {
      ThreadNumbers(t, n - 1, n);
      assert t[n - 1] in t && Last(t[..n]) == t[n - 1];
    }
    if p.seqNo > released.seqNo {
      RawNext(released, accepted, p.seqNo);
    }
  }

  lemma RawNext(released: Cursor, accepted: seq<Raw>, s: nat)
    requires released.seqNo < s <= |accepted|
    ensures CursorAt(released, accepted, s).offset == CursorAt(released, accepted, s - 1).offset + |accepted[s - 1]|
    ensures s == released.seqNo + 1 ==> CursorAt(released, accepted, s - 1).offset == released.offset
  {
    var a := accepted[released.seqNo..s - 1];
    assert accepted[released.seqNo..s] == a + [accepted[s - 1]];
    Sequences.Unsnoc(a, accepted[s - 1]);
  }

  // ------------------------------------------------------------- admission

  // Sequence counters that recovery still increments.
  predicate Countable(ledger: Ledger) { forall d | d in ledger.manifests :: Loaded(ledger, d).checkpoint < U64_MAX }

  /** The next frame of a carried thread is always admitted. */
  lemma AdmitThread(t: seq<Placed>, k: nat, d: Id, ledger: Ledger, accepted: map<Id, seq<Raw>>, safe: nat)
    requires Stored(t, d, ledger, accepted, safe) && k < |t| && Loaded(ledger, d).checkpoint < U64_MAX
    requires t[k].frame.seqNo <= U64_MAX && (k > 0 ==> t[k - 1].at != NOWHERE)
    ensures Admit(Shown(Loaded(ledger, d), t[..k]), t[k].frame, t[k].at) == Ok(Shown(Loaded(ledger, d), t[..k + 1]))
  {
    hide Thread, Carries, DurableSeq, CursorAt, Shown;
    var base := Loaded(ledger, d);
    var acc := if d in accepted then accepted[d] else [];
    assert t[k] in t;
    ThreadTake(t, k);
    ThreadStep(t, k);
    if d !in ledger.retirements { CarriedFacts(t, k, acc, |ledger.manifests[d]|, Keep(ledger, d), safe); }
    ShownClosed(base, t[..k], acc);
    Sequences.Around(t, k);
    ShownSnoc(base, t[..k], t[k]);
    assert k > 0 ==> Last(t[..k]) == t[k - 1];
    if base.archive.Some? {
      ReplayThread(t, k, base.archive.value, acc);
    }
  }

  lemma ThreadStep(t: seq<Placed>, k: nat)
    requires Thread(t) && k < |t|
    ensures if k == 0 then Loose(t[0])
    else t[k].frame.seqNo == t[k - 1].frame.seqNo + 1 && t[k].frame.previous == t[k - 1].at
  {
    assert LinkedAt(t, k);
  }

  lemma CarriedFacts(t: seq<Placed>, k: nat, accepted: seq<Raw>, checkpoint: nat, keep: nat, safe: nat)
    requires Carries(t, accepted, checkpoint, keep, safe) && k <= |t|
    ensures Matches(t, accepted) && Matches(t[..k], accepted)
    ensures t != [] ==> t[0].frame.seqNo <= keep + 1 && t[0].frame.seqNo <= checkpoint + 1
  {
    assert forall p | p in t[..k] :: p in t;
  }

  lemma ReplayThread(t: seq<Placed>, k: nat, base: Protection, accepted: seq<Raw>)
    requires Thread(t) && k < |t| && Matches(t, accepted) && t[0].frame.seqNo <= base.released.seqNo + 1
    requires CursorFits(base.released, accepted)
    ensures var before := Some(base.(latest := ShownCursor(base.released, t[..k], accepted)));
            Replayed(before, t[k].frame.seqNo, t[k].frame.raw) == Ok(AfterArchive(before, t[k]))
  {
    hide Thread, CursorAt, Matches;
    ThreadTake(t, k + 1);
    assert forall p | p in t[..k + 1] :: p in t;
    Sequences.Take(t, k, k + 1);
    MatchesTake(t, k + 1, accepted);
    ShownNext(base.released, t[..k + 1], accepted);
    MatchesAt(t, k, accepted);
    if t[k].frame.seqNo > base.released.seqNo {
      CursorMonotone(base.released, accepted, t[k].frame.seqNo);
    }
  }

  lemma MatchesTake(t: seq<Placed>, k: nat, accepted: seq<Raw>)
    requires Matches(t, accepted) && k <= |t|
    ensures Matches(t[..k], accepted)
  {
    assert forall p | p in t[..k] :: p in t;
  }

  lemma MatchesAt(t: seq<Placed>, k: nat, accepted: seq<Raw>)
    requires Matches(t, accepted) && k < |t|
    ensures 1 <= t[k].frame.seqNo <= |accepted| && t[k].frame.raw == accepted[t[k].frame.seqNo - 1]
  {
    assert t[k] in t;
  }

  predicate Somewhere(ps: seq<Placed>) {
    forall p | p in ps :: p.at != NOWHERE && Encodable(p.at) && p.frame.seqNo <= U64_MAX
  }

  lemma SplitThread(a: seq<Placed>, p: Placed, b: seq<Placed>, d: Id)
    requires p.frame.id == d
    ensures var t, k := Of(a + [p] + b, d), |Of(a, d)|;
            k < |t| && t[..k] == Of(a, d) && t[k] == p && t[..k + 1] == Of(a + [p], d)
  {
    hide Of;
    OfConcat(a + [p], b, d);
    OfSnoc(a, p, d);
    Sequences.Parts(Of(a + [p], d), Of(b, d));
    Sequences.Unsnoc(Of(a, d), p);
    Sequences.Take(Of(a + [p] + b, d), |Of(a, d)|, |Of(a, d)| + 1);
  }

  /** Reading one more frame of a log in order admits it and updates only its member. */
  lemma AdmitNext(ledger: Ledger, a: seq<Placed>, p: Placed, b: seq<Placed>, accepted: map<Id, seq<Raw>>, safe: nat)
    requires Threads(ledger, a + [p] + b, accepted, safe) && Countable(ledger) && Somewhere(a + [p] + b)
    ensures p.frame.id in ledger.manifests
    ensures var m := Shown(Loaded(ledger, p.frame.id), Of(a + [p], p.frame.id));
            && Admit(ShownAll(ledger, a)[p.frame.id], p.frame, p.at) == Ok(m)
            && ShownAll(ledger, a + [p]) == ShownAll(ledger, a)[p.frame.id := m]
  {
    hide Of, Stored, Admit, Loaded, RegistryOk, Shown;
    var d := p.frame.id;
    var live := a + [p] + b;
    InMiddle(a, p, b);
    SplitThread(a, p, b, d);
    var t, k := Of(live, d), |Of(a, d)|;
    if k > 0 {
      assert t[k - 1] in t;
      OfMembers(live, d, t[k - 1]);
    }
    AdmitThread(t, k, d, ledger, accepted, safe);
    forall e | e in ledger.manifests && e != d ensures Of(a + [p], e) == Of(a, e) { OfOther(a, p, e); }
  }

  lemma InMiddle<T>(a: seq<T>, x: T, b: seq<T>)
    ensures x in a + [x] + b
  {
    assert (a + [x] + b)[|a|] == x;
  }

  lemma OfOther(a: seq<Placed>, p: Placed, d: Id)
    requires p.frame.id != d
    ensures Of(a + [p], d) == Of(a, d)
  {
    hide Of;
    OfSnoc(a, p, d);
    Sequences.Neutral(Of(a, d));
  }

  // -------------------------------------------------------------- a segment

  // The sweep of a segment after its first k frames.
  function SweepAt(ledger: Ledger, before: seq<Placed>, s: Seg, charged: nat, k: nat): Sweep
    requires k <= |s.frames|
  {
    var fs := s.frames[..k];
    Sweep(ShownAll(ledger, before + Places(s.number, fs)), Summary(fs), charged + ENTRY_CHARGE * |Summary(fs)|,
          s.first + k, SEGMENT_HEADER + Size(fs))
  }

  lemma SummaryCount(fs: seq<Frame>, k: nat)
    requires k < |fs|
    ensures |Summary(fs[..k])| <= |Summary(fs[..k + 1])|
  {
    hide Summary;
    Sequences.Around(fs, k);
    SummarySnoc(fs[..k], fs[k]);
  }

  lemma {:induction false} SummaryGrows(fs: seq<Frame>, i: nat, j: nat)
    requires i <= j <= |fs|
    ensures |Summary(fs[..i])| <= |Summary(fs[..j])|
    decreases j
  {
    hide *;
    if i < j {
      SummaryGrows(fs, i, j - 1);
      SummaryCount(fs, j - 1);
    }
  }

  // Room for everything a segment adds to the index and the counters.
  predicate Room(options: Options, s: Seg, charged: nat) {
    && charged + ENTRY_CHARGE * |Summary(s.frames)| <= options.indexBytes <= U64_MAX - ENTRY_CHARGE
    && Length(s) <= U64_MAX && Next(s) <= U64_MAX
  }

  lemma PlacesAt(before: seq<Placed>, s: Seg, k: nat)
    requires k < |s.frames|
    ensures var p := Placed(s.frames[k], Pointer(s.number, SEGMENT_HEADER + Size(s.frames[..k])));
            before + Places(s.number, s.frames[..k + 1]) == before + Places(s.number, s.frames[..k]) + [p]
  {
    hide Places, Size;
    Sequences.Around(s.frames, k);
    PlacesSnoc(s.number, s.frames[..k], s.frames[k]);
    Sequences.Associative(before, Places(s.number, s.frames[..k]),
                          [Placed(s.frames[k], Pointer(s.number, SEGMENT_HEADER + Size(s.frames[..k])))]);
  }

  lemma SweepFrameOk(options: Options, number: nat, s: Sweep, f: Frame, m: Member)
    requires f.lsn == s.next && f.id in s.members && Admit(s.members[f.id], f, Pointer(number, s.offset)) == Ok(m)
    requires s.charged + ENTRY_CHARGE <= U64_MAX && s.offset + FrameLength(f) <= U64_MAX && s.next < U64_MAX
    requires s.charged + (if f.id in s.entries then 0 else ENTRY_CHARGE) <= options.indexBytes
    ensures SweepFrame(options, number, s, f) ==
      Ok(Sweep(s.members[f.id := m], s.entries[f.id := f.seqNo],
               s.charged + (if f.id in s.entries then 0 else ENTRY_CHARGE), s.next + 1, s.offset + FrameLength(f)))
  {
    hide Admit, FrameLength;
  }

  // The counters of a sweep fit at every frame.
  lemma RoomAt(options: Options, s: Seg, charged: nat, k: nat)
    requires Room(options, s, charged) && k < |s.frames| && s.whole
    ensures |Summary(s.frames[..k + 1])| ==
        |Summary(s.frames[..k])| + (if s.frames[k].id in Summary(s.frames[..k]) then 0 else 1)
    ensures Summary(s.frames[..k + 1]) == Summary(s.frames[..k])[s.frames[k].id := s.frames[k].seqNo]
    ensures charged + ENTRY_CHARGE * |Summary(s.frames[..k + 1])| <= options.indexBytes <= U64_MAX - ENTRY_CHARGE
    ensures Size(s.frames[..k + 1]) == Size(s.frames[..k]) + FrameLength(s.frames[k])
    ensures SEGMENT_HEADER + Size(s.frames[..k + 1]) <= U64_MAX && s.first + k < U64_MAX
  {
    hide Size, Summary, FrameLength;
    Sequences.Around(s.frames, k);
    SummarySnoc(s.frames[..k], s.frames[k]);
    SummaryGrows(s.frames, k + 1, |s.frames|);
    Sequences.Neutral(s.frames);
    RunSnoc(s.frames[..k], s.frames[k]);
    RunAround(s.frames, k);
  }

  lemma SweepStep(options: Options, ledger: Ledger, before: seq<Placed>, s: Seg, after: seq<Placed>, charged: nat,
                  k: nat, accepted: map<Id, seq<Raw>>, safe: nat)
    requires k < |s.frames| && s.frames[k].lsn == s.first + k && s.whole && Room(options, s, charged)
    requires Threads(ledger, before + Places(s.number, s.frames[..k + 1]) + after, accepted, safe)
    requires Countable(ledger) && Somewhere(before + Places(s.number, s.frames[..k + 1]) + after)
    ensures SweepFrame(options, s.number, SweepAt(ledger, before, s, charged, k), s.frames[k]) ==
        Ok(SweepAt(ledger, before, s, charged, k + 1))
  {
    hide Places, Size, Summary, ShownAll, Threads, Admit, Shown, Room, SweepFrame, Somewhere, Countable, Of, Loaded,
         FrameLength;
    var fs := s.frames;
    var at := Pointer(s.number, SEGMENT_HEADER + Size(fs[..k]));
    var a := before + Places(s.number, fs[..k]);
    PlacesAt(before, s, k);
    AdmitNext(ledger, a, Placed(fs[k], at), after, accepted, safe);
    RoomAt(options, s, charged, k);
    ShownKeys(ledger, a);
    assert fs[k].id in ShownAll(ledger, a).Keys;
    SweepFrameOk(options, s.number, SweepAt(ledger, before, s, charged, k), fs[k],
                 Shown(Loaded(ledger, fs[k].id), Of(a + [Placed(fs[k], at)], fs[k].id)));
  }

  lemma ShownKeys(ledger: Ledger, ps: seq<Placed>)
    ensures ShownAll(ledger, ps).Keys == ledger.manifests.Keys
  {
    hide Shown, Of, Loaded;
  }

  /** What the reader sees at the k-th frame. */
  lemma RestAt(owner: Owner, s: Seg, k: nat, end: nat) returns (more: seq<Byte>)
    requires s.whole && k < |s.frames| && End(s) <= end <= Length(s)
    ensures Size(s.frames[..k]) + FrameLength(s.frames[k]) <= Size(s.frames)
    ensures Content(owner, s)[SEGMENT_HEADER + Size(s.frames[..k])..end] == EncodeFrame(s.frames[k]) + more
  {
    hide EncodeHeader, EncodeAll, Size, EncodeFrame;
    HeaderLength(owner, s.number, s.first);
    RunAround(s.frames, k);
    var h, a := EncodeHeader(owner, s.number, s.first), EncodeAll(s.frames[..k]);
    var f, b := EncodeFrame(s.frames[k]), EncodeAll(s.frames[k + 1..]);
    var extra := end - End(s);
    EncodedParts(s.frames[k]);
    more := b + s.junk[..extra];
    Pieces(h, a, f, b, s.junk, extra);
  }

  lemma Pieces(h: seq<Byte>, a: seq<Byte>, f: seq<Byte>, b: seq<Byte>, junk: seq<Byte>, extra: nat)
    requires extra <= |junk|
    ensures var whole := h + (a + (f + b)) + junk;
            whole[|h| + |a|..|h| + |a| + |f| + |b| + extra] == f + (b + junk[..extra])
  {
    var whole := h + (a + (f + b)) + junk;
    var rest := f + (b + junk[..extra]);
    assert forall i | 0 <= i < |rest| :: whole[|h| + |a| + i] == rest[i];
  }

  lemma {:induction false} PlacesPrefix(number: nat, fs: seq<Frame>, j: nat) returns (rest: seq<Placed>)
    requires j <= |fs|
    ensures Places(number, fs) == Places(number, fs[..j]) + rest
    decreases |fs|
  {
    if j == |fs| {
      Sequences.Neutral(fs);
      rest := [];
      Sequences.Neutral(Places(number, fs));
    } else {
      var n := |fs| - 1;
      var r := PlacesPrefix(number, fs[..n], j);
      Sequences.Take(fs, j, n);
      var p := Placed(fs[n], Pointer(number, SEGMENT_HEADER + Size(fs[..n])));
      rest := r + [p];
      Sequences.Associative(Places(number, fs[..j]), r, [p]);
    }
  }

  lemma SweepEnd(owner: Owner, options: Options, s: Seg, end: nat, at: Sweep)
    requires SegOk(s) && s.whole && (end == End(s) || end == Length(s)) && at.offset == End(s)
    ensures SweepFrames(options, s.number, Content(owner, s), end, at) == Ok(at)
  {
    hide Size, EncodeHeader, EncodeAll, LegalFrames, SweepFrame, Inspect, Crc32.Checksum;
    HeaderLength(owner, s.number, s.first);
    var head := EncodeHeader(owner, s.number, s.first) + EncodeAll(s.frames);
    Sequences.Parts(head, s.junk);
    assert Content(owner, s)[End(s)..end] == if end == End(s) then [] else s.junk;
    assert Unfinished([]);
  }

  // One step of the reading loop, when the next frame is whole and acceptable.
  lemma SweepOne(options: Options, number: nat, bytes: seq<Byte>, end: nat, s: Sweep, f: Frame, more: seq<Byte>,
                 next: Sweep)
    requires LegalFrame(f) && s.offset + FrameLength(f) <= end <= |bytes|
    requires bytes[s.offset..end] == EncodeFrame(f) + more
    requires SweepFrame(options, number, s, f) == Ok(next) && next.offset == s.offset + FrameLength(f)
    ensures SweepFrames(options, number, bytes, end, s) == SweepFrames(options, number, bytes, end, next)
  {
    hide LegalFrame, EncodeFrame, SweepFrame, Inspect, Unfinished, FrameLen;
    WholeFrameReads(f, more);
  }

  lemma SweepOffset(ledger: Ledger, before: seq<Placed>, s: Seg, charged: nat, k: nat)
    requires k <= |s.frames|
    ensures SweepAt(ledger, before, s, charged, k).offset == SEGMENT_HEADER + Size(s.frames[..k])
  {
  }

  lemma SweepThreads(options: Options, ledger: Ledger, before: seq<Placed>, s: Seg, after: seq<Placed>, charged: nat,
                     k: nat, accepted: map<Id, seq<Raw>>, safe: nat)
    requires k < |s.frames| && SegOk(s) && s.whole && Room(options, s, charged)
    requires Threads(ledger, before + Places(s.number, s.frames) + after, accepted, safe)
    requires Countable(ledger) && Somewhere(before + Places(s.number, s.frames) + after)
    ensures SweepFrame(options, s.number, SweepAt(ledger, before, s, charged, k), s.frames[k]) ==
        Ok(SweepAt(ledger, before, s, charged, k + 1))
  {
    hide Places, Size, Threads, Somewhere, Countable, Room, SweepAt, SweepFrame, LegalFrames, Unfinished;
    var rest := PlacesPrefix(s.number, s.frames, k + 1);
    var head := Places(s.number, s.frames[..k + 1]);
    Sequences.Associative(before, head, rest);
    Sequences.Associative(before + head, rest, after);
    SweepStep(options, ledger, before, s, rest + after, charged, k, accepted, safe);
  }

  lemma FrameLegal(s: Seg, k: nat)
    requires SegOk(s) && k < |s.frames|
    ensures LegalFrame(s.frames[k])
  {
    hide LegalFrame;
  }

  /** Reading a settled segment accepts exactly its frames, whatever torn rest follows them. */
  lemma {:induction false} SweepRun(owner: Owner, options: Options, ledger: Ledger, before: seq<Placed>, s: Seg,
                                    after: seq<Placed>, charged: nat, k: nat, end: nat, accepted: map<Id, seq<Raw>>,
                                    safe: nat)
    requires k <= |s.frames| && SegOk(s) && s.whole && Room(options, s, charged) && (end == End(s) || end == Length(s))
    requires Threads(ledger, before + Places(s.number, s.frames) + after, accepted, safe)
    requires Countable(ledger) && Somewhere(before + Places(s.number, s.frames) + after)
    ensures SweepAt(ledger, before, s, charged, k).offset <= end <= Length(s)
    ensures SweepFrames(options, s.number, Content(owner, s), end, SweepAt(ledger, before, s, charged, k))
            == Ok(SweepAt(ledger, before, s, charged, |s.frames|))
    decreases |s.frames| - k
  {
    hide Places, Size, Content, Threads, Somewhere, Countable, Room, SegOk, EncodeFrame, SweepAt, FrameLength,
         SweepFrames, SweepFrame, LegalFrame;
    Sequences.Neutral(s.frames);
    SweepOffset(ledger, before, s, charged, k);
    if k == |s.frames| {
      SweepEnd(owner, options, s, end, SweepAt(ledger, before, s, charged, k));
    } else {
      var more := RestAt(owner, s, k, end);
      FrameLegal(s, k);
      RunAround(s.frames, k);
      SweepOffset(ledger, before, s, charged, k + 1);
      SweepThreads(options, ledger, before, s, after, charged, k, accepted, safe);
      SweepRun(owner, options, ledger, before, s, after, charged, k + 1, end, accepted, safe);
      SweepOne(options, s.number, Content(owner, s), end, SweepAt(ledger, before, s, charged, k), s.frames[k], more,
               SweepAt(ledger, before, s, charged, k + 1));
    }
  }

  // ---------------------------------------------------------------- the log

  function Summaries(segs: seq<Seg>): seq<Segment> { seq(|segs|, i requires 0 <= i < |segs| => SegmentOf(segs[i])) }

  // The boundary a scan still has to publish for a segment.
  function Unpublished(owner: Owner, boundaries: map<nat, Boundary>, s: Seg): Option<Boundary> {
    if Fenced(s) && s.number !in boundaries then Some(BoundaryOf(owner, s)) else None
  }

  // What a scan knows after the first k files.
  function ProgressAt(owner: Owner, boundaries: map<nat, Boundary>, ledger: Ledger, base: nat, segs: seq<Seg>,
                      k: nat): Progress
    requires k <= |segs|
  {
    var done := segs[..k];
    var ended := k == |segs| && k > 0;
    Progress(ShownAll(ledger, Live(done)), base + Charges(done), Storage(done),
             if k == 0 then None else Some(Next(segs[k - 1])), Summaries(done),
             ended && Fenced(segs[k - 1]), if ended then Unpublished(owner, boundaries, segs[k - 1]) else None)
  }

  /** Both budgets and the counters admit what the directory holds. */
  predicate Affordable(options: Options, base: nat, segs: seq<Seg>) {
    && options.maxBytes <= U64_MAX && options.indexBytes <= U64_MAX - ENTRY_CHARGE
    && Storage(segs) <= options.maxBytes && base + Charges(segs) <= options.indexBytes
    && (segs != [] ==> Next(segs[|segs| - 1]) <= U64_MAX)
  }

  predicate Readable(owner: Owner, files: seq<File>, segs: seq<Seg>) {
    |files| == |segs| && forall i | 0 <= i < |segs| ::
      files[i].number == segs[i].number && files[i].bytes == Content(owner, segs[i])
  }

  lemma BoundaryAccepted(owner: Owner, boundaries: map<nat, Boundary>, segs: seq<Seg>, k: nat, file: File)
    requires BoundariesOk(owner, boundaries, segs) && SegsOk(segs) && k < |segs|
    requires file.number == segs[k].number && file.bytes == Content(owner, segs[k])
    ensures CheckBoundary(boundaries, file) ==
        Ok(if segs[k].number in boundaries then Some(BoundaryOf(owner, segs[k])) else None)
    ensures segs[k].number in boundaries ==> Fenced(segs[k])
    ensures k < |segs| - 1 && Fenced(segs[k]) ==> segs[k].number in boundaries
  {
    hide Content, Size, LegalFrames, Unfinished, Crc32.Checksum;
    assert InPlace(segs, k);
  }

  lemma SegAccounts(segs: seq<Seg>, k: nat)
    requires k < |segs|
    ensures Storage(segs[..k + 1]) == Storage(segs[..k]) + Length(segs[k]) <= Storage(segs)
    ensures Charges(segs[..k + 1]) == Charges(segs[..k]) + SegmentCharge(segs[k]) <= Charges(segs)
    ensures Live(segs[..k + 1]) == Live(segs[..k]) + Places(segs[k].number, segs[k].frames)
    ensures Live(segs) == Live(segs[..k]) + Places(segs[k].number, segs[k].frames) + Live(segs[k + 1..])
    ensures Summaries(segs[..k + 1]) == Summaries(segs[..k]) + [SegmentOf(segs[k])]
  {
    hide Storage, Charges, Live, Places, Length, SegmentCharge, SegmentOf;
    Sequences.Around(segs, k);
    AccountSnoc(segs[..k], segs[k]);
    AccountConcat(segs[..k + 1], segs[k + 1..]);
    LiveSnoc(segs[..k], segs[k]);
    LiveConcat(segs[..k + 1], segs[k + 1..]);
  }

  lemma {:induction false} NextGrows(segs: seq<Seg>, i: nat, j: nat)
    requires SegsOk(segs) && i <= j < |segs|
    ensures Next(segs[i]) <= Next(segs[j])
    decreases j
  {
    hide SegOk;
    assert InPlace(segs, j);
    if i < j { NextGrows(segs, i, j - 1); }
  }

  // An empty or header-less file only carries the LSN on.
  lemma ScanEmptyExact(owner: Owner, file: File, evidence: Option<Boundary>, final: bool, p: Progress, s: Seg)
    requires SegOk(s) && !s.whole && file.number == s.number && file.bytes == Content(owner, s)
    requires evidence.None? || evidence.value == BoundaryOf(owner, s)
    requires evidence.None? ==> final
    requires if p.next.Some? then p.next.value == s.first else s.first == 1
    ensures ScanEmpty(file, evidence, final, p) ==
      Ok(p.(next := Some(Next(s)), rotate := final, segments := p.segments + [SegmentOf(s)],
            fence := if evidence.None? then Some(BoundaryOf(owner, s)) else p.fence))
  {
    hide Content, LegalFrames, Unfinished;
  }

  // A file with a header is read to its last whole frame.
  lemma ScanWholeExact(owner: Owner, options: Options, file: File, evidence: Option<Boundary>, final: bool, p: Progress,
                       s: Seg,
                       ledger: Ledger, before: seq<Placed>, after: seq<Placed>, accepted: map<Id, seq<Raw>>, safe: nat)
    requires SegOk(s) && s.whole && file.number == s.number && file.bytes == Content(owner, s)
    requires evidence.None? || (evidence.value == BoundaryOf(owner, s) && Fenced(s))
    requires evidence.None? && Fenced(s) ==> final
    requires p.next.Some? ==> p.next.value == s.first
    requires p.members == ShownAll(ledger, before) && Room(options, s, p.charged)
    requires Threads(ledger, before + Places(s.number, s.frames) + after, accepted, safe)
    requires Countable(ledger) && Somewhere(before + Places(s.number, s.frames) + after)
    ensures SEGMENT_HEADER <= |file.bytes| && (evidence.Some? ==> SEGMENT_HEADER <= evidence.value.end <= |file.bytes|)
    ensures ScanWhole(owner, options, file, evidence, final, p) ==
      Ok(Progress(ShownAll(ledger, before + Places(s.number, s.frames)), p.charged + ENTRY_CHARGE * |Summary(s.frames)|,
                  p.storage,
                  Some(Next(s)), p.segments + [SegmentOf(s)], p.rotate || (final && Fenced(s)),
                  if Fenced(s) && evidence.None? then Some(BoundaryOf(owner, s)) else p.fence))
  {
    hide Content, LegalFrames, Unfinished, Size, Summary, ShownAll, Places, Threads, Countable, Somewhere, SweepFrames,
         InspectHeader, Room, Crc32.Checksum;
    WholeHeader(owner, s);
    var end := if evidence.Some? then End(s) else Length(s);
    SweepRun(owner, options, ledger, before, s, after, p.charged, 0, end, accepted, safe);
    SweepBegins(ledger, before, s, p.charged);
    Sequences.Neutral(s.frames);
  }

  lemma WholeHeader(owner: Owner, s: Seg)
    requires SegOk(s) && s.whole
    ensures SEGMENT_HEADER <= Length(s)
    ensures InspectHeader(Content(owner, s)[..SEGMENT_HEADER], owner, s.number) == Ok(s.first)
  {
    hide EncodeAll, Size, LegalFrames, Unfinished, EncodeHeader, InspectHeader;
    HeaderLength(owner, s.number, s.first);
    var h := EncodeHeader(owner, s.number, s.first);
    HeaderIff(h, owner, s.number, s.first);
    assert Content(owner, s)[..SEGMENT_HEADER] == h;
  }

  lemma SweepBegins(ledger: Ledger, before: seq<Placed>, s: Seg, charged: nat)
    ensures SweepAt(ledger, before, s, charged, 0) == Sweep(ShownAll(ledger, before), map[], charged, s.first,
                                                            SEGMENT_HEADER)
  {
    hide ShownAll;
    assert s.frames[..0] == [] && Places(s.number, []) == [] && Size([]) == 0 && Summary([]) == map[];
    Sequences.Neutral(before);
  }
}
