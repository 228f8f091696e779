/** Accepting one frame: what it does to the segment, the accounts and its member. */
module LogPush {
  import opened Prelude
  import opened FrameFormat
  import opened FrameRun
  import opened LogLayout
  import opened LogState
  import opened ThreadLaws
  import opened LogWrites
  import Sequences

  function Extended(s: Seg, f: Frame): Seg { s.(frames := s.frames + [f]) }

  function ExtendedLast(segs: seq<Seg>, f: Frame): seq<Seg>
    requires segs != []
  {
    segs[..|segs| - 1] + [Extended(Last(segs), f)]
  }

  lemma ExtendedContent(owner: Owner, s: Seg, f: Frame)
    requires !Fenced(s)
    ensures Content(owner, Extended(s, f)) == Content(owner, s) + EncodeFrame(f)
    ensures Length(Extended(s, f)) == Length(s) + FrameLength(f) == SEGMENT_HEADER + Size(s.frames) + FrameLength(f)
    ensures |EncodeFrame(f)| == FrameLength(f)
  {
    hide EncodeHeader, EncodeAll, Size, EncodeFrame;
    EncodedParts(f);
    RunSnoc(s.frames, f);
    HeaderLength(owner, s.number, s.first);
    var h := EncodeHeader(owner, s.number, s.first);
    Sequences.Associative(h, EncodeAll(s.frames), EncodeFrame(f));
    Sequences.Neutral(h + EncodeAll(s.frames));
    Sequences.Neutral(h + EncodeAll(Extended(s, f).frames));
  }

  // ------------------------------------------------------------- the layout

  lemma ExtendedOk(s: Seg, f: Frame)
    requires SegOk(s) && !Fenced(s) && LegalFrame(f) && f.lsn == Next(s)
    ensures SegOk(Extended(s, f))
  {
    hide LegalFrame;
  }

  lemma ExtendedSegs(segs: seq<Seg>, f: Frame)
    requires SegsOk(segs) && segs != [] && !Fenced(Last(segs)) && LegalFrame(f) && f.lsn == Next(Last(segs))
    ensures SegsOk(ExtendedLast(segs, f))
  {
    hide SegOk, LegalFrame;
    var n := |segs| - 1;
    assert InPlace(segs, n);
    ExtendedOk(segs[n], f);
    forall i | 0 <= i <= n ensures InPlace(ExtendedLast(segs, f), i) { assert InPlace(segs, i); }
  }

  lemma ExtendedStable(segs: seq<Seg>, stable: nat, safe: nat, f: Frame)
    requires StableOk(segs, stable, safe) && segs != []
    ensures StableOk(ExtendedLast(segs, f), stable, safe)
  {
    hide Size;
    var s := Last(segs);
    if s.first <= safe {
      assert Extended(s, f).frames[..safe + 1 - s.first] == s.frames[..safe + 1 - s.first];
    }
  }

  lemma ExtendedFiles(owner: Owner, files: seq<File>, segs: seq<Seg>, stable: nat, f: Frame)
    requires FilesOk(owner, files, segs, stable) && segs != [] && !Fenced(Last(segs)) && SEGMENT_HEADER <= stable
    ensures FilesOk(owner, files, ExtendedLast(segs, f), stable)
  {
    hide Content, EncodeFrame, Fenced, Length;
    ExtendedContent(owner, Last(segs), f);
    ExtendedFence(Last(segs), f);
  }

  lemma ExtendedFence(s: Seg, f: Frame)
    ensures Fenced(Extended(s, f)) <==> Fenced(s)
  {
  }

  lemma ExtendedBoundaries(owner: Owner, boundaries: map<nat, Boundary>, segs: seq<Seg>, f: Frame)
    requires BoundariesOk(owner, boundaries, segs) && segs != [] && !Fenced(Last(segs))
    ensures BoundariesOk(owner, boundaries, ExtendedLast(segs, f))
  {
    hide Fenced, BoundaryOf;
    ExtendedFence(Last(segs), f);
    var n := |segs| - 1;
    assert segs[n].number !in boundaries;
  }

  lemma PushLayout(owner: Owner, disk: Disk, past: History, accepted: map<Id, seq<Raw>>, f: Frame)
    requires Layout(owner, disk, past) && past.segs != [] && !Fenced(Last(past.segs)) && SEGMENT_HEADER <= disk.stable
    requires LegalFrame(f) && f.lsn == Next(Last(past.segs))
    ensures Layout(owner, disk, past.(segs := ExtendedLast(past.segs, f), accepted := accepted))
  {
    hide SegsOk, FilesOk, BoundariesOk, StableOk, ExtendedLast, LegalFrame, Fenced, Next;
    ExtendedSegs(past.segs, f);
    ExtendedFiles(owner, disk.files, past.segs, disk.stable, f);
    ExtendedBoundaries(owner, disk.boundaries, past.segs, f);
    ExtendedStable(past.segs, disk.stable, past.safe, f);
  }

  // ------------------------------------------------------------- positions

  function Put(segs: seq<Seg>, f: Frame): Placed
    requires segs != []
  {
    Placed(f, Here(Last(segs)))
  }

  lemma ExtendedLive(segs: seq<Seg>, f: Frame)
    requires segs != []
    ensures Live(ExtendedLast(segs, f)) == Live(segs) + [Put(segs, f)]
  {
    hide Live, Places, Size;
    var n := |segs| - 1;
    var s := segs[n];
    Sequences.Snoc(segs);
    LiveSnoc(segs[..n], s);
    LiveSnoc(segs[..n], Extended(s, f));
    PlacesSnoc(s.number, s.frames, f);
    Sequences.Associative(Live(segs[..n]), Places(s.number, s.frames), [Put(segs, f)]);
  }

  lemma HereAdvances(segs: seq<Seg>, f: Frame)
    requires segs != []
    ensures Below(Here(Last(segs)), Here(Last(ExtendedLast(segs, f))))
  {
    hide Size;
    RunSnoc(Last(segs).frames, f);
  }

  // ------------------------------------------------------------- the accounts

  function Charged(segments: seq<Segment>, f: Frame): seq<Segment>
    requires segments != []
  {
    var s := Last(segments);
    segments[|segments| - 1 := Segment(s.number, s.length + FrameLength(f), s.members[f.id := f.seqNo])]
  }

  function EntryGrowth(segments: seq<Segment>, d: Id): nat
    requires segments != []
  {
    if d in Last(segments).members then 0 else ENTRY_CHARGE
  }

  lemma PushAccounts(options: Options, storage: nat, charged: nat, segments: seq<Segment>, registry: seq<Registration>,
                     segs: seq<Seg>, protections: nat, f: Frame)
    requires Accounts(options, storage, charged, segments, registry, segs, protections) && segs != []
    requires !Fenced(Last(segs))
    requires segments != [] && storage + FrameLength(f) <= options.maxBytes
    requires charged + EntryGrowth(segments, f.id) <= options.indexBytes
    ensures Accounts(options, storage + FrameLength(f), charged + EntryGrowth(segments, f.id), Charged(segments, f),
                     registry, ExtendedLast(segs, f), protections)
  {
    hide Storage, Charges, RegistryCharge, Summary, Length, FrameLength, Fenced;
    var n := |segs| - 1;
    var s := segs[n];
    assert segments[n] == SegmentOf(s);
    ExtendedContent(seq(16, _ => 0), s, f);
    SummarySnoc(s.frames, f);
    Sequences.Snoc(segs);
    AccountSnoc(segs[..n], s);
    AccountSnoc(segs[..n], Extended(s, f));
  }

  // -------------------------------------------------------------- the member

  function Advance(c: Cursor, raw: Raw): Cursor { Cursor(c.seqNo + 1, c.offset + |raw|) }

  // Everything of the member so far is durable: remember where that ends.
  function Refreshed(m: Member, durable: nat): Member {
    if m.lsn > durable then m else
    m.(durableSeq := m.seqNo, durablePointer := m.latest,
       archive := match m.archive case None => None case Some(p) => Some(p.(durable := p.latest)))
  }

  function Noted(m: Member, p: Placed, durable: nat): Member {
    var r := Refreshed(m, durable);
    r.(latest := p.at, seqNo := p.frame.seqNo, lsn := p.frame.lsn,
       archive := match r.archive case None => None case Some(a) => Some(a.(latest := Advance(a.latest, p.frame.raw))))
  }

  // The frame that continues a member's thread.
  predicate Continues(p: Placed, m: Member, accepted: seq<Raw>, durable: nat) {
    && p.frame.seqNo == |accepted| + 1 <= U64_MAX && p.frame.previous == m.latest && p.frame.lsn > durable
    && Encodable(p.at)
    && (m.archive.Some? ==> m.archive.value.latest.offset + |p.frame.raw| <= U64_MAX)
  }

  lemma PushThread(t: seq<Placed>, d: Id, p: Placed, m: Member, ledger: Ledger, accepted: map<Id, seq<Raw>>, safe: nat)
    requires Stored(t, d, ledger, accepted, safe) && Known(t, d, m, ledger, accepted, safe, p.at) && !m.retired
    requires Before(t, p.at, p.frame.lsn) && Continues(p, m, accepted[d], safe)
    ensures Stored(t + [p], d, ledger, accepted[d := accepted[d] + [p.frame.raw]], safe)
  {
    hide Until, CursorAt, CursorFits, Keep, Carries, ArchiveAgrees, Thread, Before, DurableSeq;
    PushLinks(t, p, m, accepted[d], Keep(ledger, d), |ledger.manifests[d]|, safe);
    CarriesSnoc(t, p, accepted[d], |ledger.manifests[d]|, Keep(ledger, d), safe);
    DurableUnmoved(t, p, |ledger.manifests[d]|, safe);
    PushFits(m, d, p, ledger, accepted[d], safe);
  }

  lemma PushFits(m: Member, d: Id, p: Placed, ledger: Ledger, accepted: seq<Raw>, durable: nat)
    requires ArchiveAgrees(m.archive, d, ledger, accepted, m.lsn > durable, m.durableSeq)
    requires Continues(p, m, accepted, durable)
    ensures d in ledger.archives ==> CursorFits(ledger.archives[d].released, accepted + [p.frame.raw])
  {
    hide CursorAt;
    if m.archive.Some? { CursorNext(m.archive.value.released, accepted, p.frame.raw); }
  }

  lemma DurableUnmoved(t: seq<Placed>, p: Placed, checkpoint: nat, safe: nat)
    requires p.frame.lsn > safe
    ensures DurableSeq(t + [p], checkpoint, safe) == DurableSeq(t, checkpoint, safe)
  {
    hide Until;
    UntilSnoc(t, p, safe);
  }

  lemma PushLinks(t: seq<Placed>, p: Placed, m: Member, accepted: seq<Raw>, keep: nat, checkpoint: nat, safe: nat)
    requires Thread(t) && Before(t, p.at, p.frame.lsn) && Carries(t, accepted, checkpoint, keep, safe)
    requires Continues(p, m, accepted, safe)
    requires t != [] ==> m.latest == Last(t).at
    requires m.latest == NOWHERE || Below(m.latest, p.at)
    ensures Thread(t + [p])
  {
    hide Thread;
    if t != [] { assert Last(t) in t; }
    ThreadSnoc(t, p);
  }

  lemma CursorNext(released: Cursor, accepted: seq<Raw>, raw: Raw)
    requires released.seqNo <= |accepted|
    ensures CursorAt(released, accepted + [raw], |accepted| + 1) == Advance(CursorAt(released, accepted, |accepted|),
                                                                            raw)
    ensures forall s | released.seqNo <= s <= |accepted| ::
      CursorAt(released, accepted + [raw], s) == CursorAt(released, accepted, s)
  {
    var longer := accepted + [raw];
    var k := released.seqNo;
    assert longer[k..|longer|] == accepted[k..|accepted|] + [raw];
    Sequences.Unsnoc(accepted[k..|accepted|], raw);
    forall s | k <= s <= |accepted| ensures longer[k..s] == accepted[k..s] { }
  }

  lemma PushArchive(m: Member, d: Id, p: Placed, ledger: Ledger, accepted: seq<Raw>, t: seq<Placed>, durable: nat)
    requires ArchiveAgrees(m.archive, d, ledger, accepted, m.lsn > durable, m.durableSeq)
    requires m.seqNo == |accepted| && Continues(p, m, accepted, durable)
    ensures ArchiveAgrees(Noted(m, p, durable).archive, d, ledger, accepted + [p.frame.raw], true,
                          Noted(m, p, durable).durableSeq)
  {
    hide CursorAt;
    if m.archive.Some? { CursorNext(m.archive.value.released, accepted, p.frame.raw); }
  }

  lemma PushKnown(t: seq<Placed>, d: Id, p: Placed, m: Member, ledger: Ledger, accepted: map<Id, seq<Raw>>,
                  durable: nat, later: Pointer)
    requires Known(t, d, m, ledger, accepted, durable, p.at) && !m.retired && Below(p.at, later)
    requires Stored(t, d, ledger, accepted, durable)
    requires Before(t, p.at, p.frame.lsn) && Continues(p, m, accepted[d], durable)
    ensures Known(t + [p], d, Noted(m, p, durable), ledger, accepted[d := accepted[d] + [p.frame.raw]], durable, later)
  {
    hide Until, CursorAt, Before, Thread, ArchiveAgrees, Advance, DurableSeq, Below;
    PushArchive(m, d, p, ledger, accepted[d], t, durable);
    PushDurable(t, p, m, accepted[d], |ledger.manifests[d]|, Keep(ledger, d), durable);
  }

  lemma PushDurable(t: seq<Placed>, p: Placed, m: Member, accepted: seq<Raw>, checkpoint: nat, keep: nat, durable: nat)
    requires Carries(t, accepted, checkpoint, keep, durable) && m.seqNo == |accepted| && p.frame.lsn > durable
    requires if t == [] then m.lsn <= durable else m.latest == Last(t).at && m.lsn == Last(t).frame.lsn
    requires m.lsn > durable ==>
      && m.durableSeq == DurableSeq(t, checkpoint, durable)
      && (Until(t, durable) != [] ==> m.durablePointer == Last(Until(t, durable)).at)
    ensures var n := Noted(m, p, durable);
      && n.durableSeq == DurableSeq(t + [p], checkpoint, durable)
      && (Until(t + [p], durable) != [] ==> n.durablePointer == Last(Until(t + [p], durable)).at)
  {
    hide Until;
    UntilSnoc(t, p, durable);
    if m.lsn <= durable { UntilAll(t, durable); }
  }

  // ---------------------------------------------------------------- the step

  function Pushed(w: World, f: Frame): World
    requires w.past.segs != [] && w.mem.segments != [] && f.id in w.mem.members && f.id in w.past.accepted
  {
    World(w.options, w.owner,
          w.mem.(buffer := w.mem.buffer + EncodeFrame(f), offset := w.mem.offset + FrameLength(f),
                 storage := w.mem.storage + FrameLength(f),
                 charged := w.mem.charged + EntryGrowth(w.mem.segments, f.id),
                 lsn := f.lsn, segments := Charged(w.mem.segments, f),
                 members := w.mem.members[f.id := Noted(w.mem.members[f.id], Put(w.past.segs, f), w.mem.durable)],
                 tails := Longer(w.mem.tails, f.id, f.raw)),
          w.disk,
          w.past.(segs := ExtendedLast(w.past.segs, f),
                  accepted := w.past.accepted[f.id := w.past.accepted[f.id] + [f.raw]]))
  }

  function Longer(tails: map<Id, seq<Raw>>, d: Id, raw: Raw): map<Id, seq<Raw>> {
    if d in tails then tails[d := tails[d] + [raw]] else tails
  }

  /** What accepting a frame takes: it continues its member, fits the buffer and every budget. */
  predicate MayPush(w: World, f: Frame) {
    && Healthy(w) && f.id in w.mem.members && !w.mem.members[f.id].retired
    && LegalFrame(f) && f.lsn == w.mem.lsn + 1
    && f.seqNo == w.mem.members[f.id].seqNo + 1 && f.previous == w.mem.members[f.id].latest
    && |w.mem.buffer| + FrameLength(f) <= w.options.bufferBytes
    && w.mem.storage + FrameLength(f) <= w.options.maxBytes
    && w.mem.segments != [] && w.mem.charged + EntryGrowth(w.mem.segments, f.id) <= w.options.indexBytes
    && (w.mem.members[f.id].archive.Some? ==> w.mem.members[f.id].archive.value.latest.offset + |f.raw| <= U64_MAX)
  }

  lemma PushReady(w: World, f: Frame)
    requires MayPush(w, f)
    ensures w.past.segs != [] && w.disk.files != [] && !Fenced(Last(w.past.segs)) && SEGMENT_HEADER <= w.disk.stable
    ensures f.lsn == Next(Last(w.past.segs)) && w.past.safe == w.mem.durable < f.lsn
    ensures Before(Live(w.past.segs), Here(Last(w.past.segs)), f.lsn)
  {
    hide Content, Layout, Threads, Accounts, Members, Tails, Size, Fenced, LegalFrame, Before, Live;
    ActiveBounds(w);
  }

  lemma PushMember(w: World, f: Frame)
    requires MayPush(w, f) && w.past.segs != []
    ensures f.id in w.disk.ledger.manifests && f.id in w.past.accepted
    ensures Continues(Put(w.past.segs, f), w.mem.members[f.id], w.past.accepted[f.id], w.mem.durable)
    ensures Known(Of(Live(w.past.segs), f.id), f.id, w.mem.members[f.id], w.disk.ledger, w.past.accepted, w.mem.durable,
                  Here(Last(w.past.segs)))
    ensures Stored(Of(Live(w.past.segs), f.id), f.id, w.disk.ledger, w.past.accepted, w.mem.durable)
  {
    hide Layout, Active, Accounts, Tails, Live, Of, Carries, Thread, DurableSeq, ArchiveAgrees, Here;
    PushReady(w, f);
    HereEncodable(w);
    assert f.lsn > w.mem.durable;
    assert f.id in w.mem.members.Keys;
  }

  lemma {:induction false} LengthWithinStorage(segs: seq<Seg>)
    requires segs != []
    ensures Length(Last(segs)) <= Storage(segs)
  {
    hide Length;
  }

  lemma HereEncodable(w: World)
    requires Healthy(w)
    ensures w.past.segs != [] && Encodable(Here(Last(w.past.segs)))
  {
    hide Threads, Members, Tails, FilesOk, BoundariesOk, StableOk, Storage, Charges, RegistryCharge, SegmentsAgree,
         Content, Size, LegalFrames, Unfinished;
    LengthWithinStorage(w.past.segs);
    assert InPlace(w.past.segs, |w.past.segs| - 1);
  }

  lemma StoredSame(t: seq<Placed>, d: Id, ledger: Ledger, accepted: map<Id, seq<Raw>>, other: Id, raws: seq<Raw>,
                   safe: nat)
    requires Stored(t, d, ledger, accepted, safe) && d != other
    ensures Stored(t, d, ledger, accepted[other := raws], safe)
  {
    hide Thread, Carries, DurableSeq, Keep;
  }

  lemma KnownSame(t: seq<Placed>, d: Id, m: Member, ledger: Ledger, accepted: map<Id, seq<Raw>>, durable: nat,
                  here: Pointer, other: Id, raws: seq<Raw>, later: Pointer)
    requires Known(t, d, m, ledger, accepted, durable, here) && d != other && Below(here, later)
    ensures Known(t, d, m, ledger, accepted[other := raws], durable, later)
  {
    hide DurableSeq, ArchiveAgrees, Until;
  }

  lemma OfOther(live: seq<Placed>, p: Placed, d: Id)
    requires p.frame.id != d
    ensures Of(live + [p], d) == Of(live, d)
  {
    hide Of;
    OfSnoc(live, p, d);
    Sequences.Neutral(Of(live, d));
  }

  lemma PushThreads(ledger: Ledger, live: seq<Placed>, accepted: map<Id, seq<Raw>>, safe: nat, p: Placed, m: Member)
    requires Threads(ledger, live, accepted, safe) && p.frame.id in ledger.manifests && p.frame.id in accepted
    requires Known(Of(live, p.frame.id), p.frame.id, m, ledger, accepted, safe, p.at) && !m.retired
    requires Before(live, p.at, p.frame.lsn) && Continues(p, m, accepted[p.frame.id], safe)
    ensures Threads(ledger, live + [p], accepted[p.frame.id := accepted[p.frame.id] + [p.frame.raw]], safe)
  {
    hide Stored, Of, Known, Before, RegistryOk, Continues;
    var e := p.frame.id;
    var more := accepted[e := accepted[e] + [p.frame.raw]];
    forall d | d in ledger.manifests ensures Stored(Of(live + [p], d), d, ledger, more, safe) {
      if d == e {
        OfSnoc(live, p, d);
        ThreadBefore(live, d, p.at, p.frame.lsn);
        PushThread(Of(live, d), d, p, m, ledger, accepted, safe);
      } else {
        OfOther(live, p, d);
        StoredSame(Of(live, d), d, ledger, accepted, e, accepted[e] + [p.frame.raw], safe);
      }
    }
  }

  lemma PushMembers(members: map<Id, Member>, live: seq<Placed>, ledger: Ledger, accepted: map<Id, seq<Raw>>,
                    durable: nat, p: Placed, later: Pointer)
    requires Members(members, live, ledger, accepted, durable, p.at) && Below(p.at, later)
    requires p.frame.id in members && p.frame.id in accepted && !members[p.frame.id].retired
    requires Stored(Of(live, p.frame.id), p.frame.id, ledger, accepted, durable)
    requires Before(live, p.at, p.frame.lsn) && Continues(p, members[p.frame.id], accepted[p.frame.id], durable)
    ensures Members(members[p.frame.id := Noted(members[p.frame.id], p, durable)], live + [p], ledger,
                    accepted[p.frame.id := accepted[p.frame.id] + [p.frame.raw]], durable, later)
  {
    hide Stored, Of, Known, Before, Noted, Continues, Below;
    var e := p.frame.id;
    var after := members[e := Noted(members[e], p, durable)];
    var more := accepted[e := accepted[e] + [p.frame.raw]];
    forall d | d in after ensures Known(Of(live + [p], d), d, after[d], ledger, more, durable, later) {
      if d == e {
        OfSnoc(live, p, d);
        ThreadBefore(live, d, p.at, p.frame.lsn);
        PushKnown(Of(live, d), d, p, members[d], ledger, accepted, durable, later);
      } else {
        OfOther(live, p, d);
        KnownSame(Of(live, d), d, members[d], ledger, accepted, durable, p.at, e, accepted[e] + [p.frame.raw], later);
      }
    }
  }

  lemma PushActive(w: World, f: Frame)
    requires MayPush(w, f) && w.past.segs != [] && f.id in w.past.accepted
    ensures Active(w.options, w.owner, Pushed(w, f).mem, w.disk.files, w.disk.stable, Pushed(w, f).past)
  {
    hide Content, Layout, Threads, Accounts, Members, Tails, LegalFrame, EncodeFrame, Fenced, Live, Noted, Charged,
         EntryGrowth, Longer, Length;
    PushReady(w, f);
    PushBound(w, f);
    var s := Last(w.past.segs);
    ExtendedContent(w.owner, s, f);
    ExtendedFence(s, f);
    Sequences.Associative(Last(w.disk.files).bytes, w.mem.buffer, EncodeFrame(f));
  }

  lemma PushBound(w: World, f: Frame)
    requires MayPush(w, f)
    ensures f.lsn <= U64_MAX
  {
    hide Healthy, InspectRecord;
  }

  lemma PushTails(tails: map<Id, seq<Raw>>, manifests: map<Id, seq<Raw>>, accepted: map<Id, seq<Raw>>, d: Id, raw: Raw)
    requires Tails(tails, manifests, accepted) && d in accepted
    ensures Tails(Longer(tails, d, raw), manifests, accepted[d := accepted[d] + [raw]])
  {
    if d in tails { Sequences.Associative(manifests[d], tails[d], [raw]); }
  }

  /** Accepting a frame that may be pushed keeps the whole invariant. */
  lemma PushKeeps(w: World, f: Frame)
    requires MayPush(w, f)
    ensures w.past.segs != [] && f.id in w.past.accepted && Healthy(Pushed(w, f))
  {
    hide Content, Layout, Threads, Active, Accounts, Members, Tails, Size, Fenced, EncodeFrame, LegalFrame, Live, Next,
         Before, Known, Stored, Continues, Noted, Here, Of, Below, ExtendedLast, Charged, EntryGrowth, Longer;
    PushReady(w, f);
    PushMember(w, f);
    PushActive(w, f);
    PushHere(w, f);
    var p := Put(w.past.segs, f);
    PushLayout(w.owner, w.disk, w.past, w.past.accepted[f.id := w.past.accepted[f.id] + [f.raw]], f);
    ExtendedLive(w.past.segs, f);
    HereAdvances(w.past.segs, f);
    PushThreads(w.disk.ledger, Live(w.past.segs), w.past.accepted, w.past.safe, p, w.mem.members[f.id]);
    PushMembers(w.mem.members, Live(w.past.segs), w.disk.ledger, w.past.accepted, w.mem.durable, p,
                Here(Last(ExtendedLast(w.past.segs, f))));
    PushAccounts(w.options, w.mem.storage, w.mem.charged, w.mem.segments, w.disk.ledger.registry, w.past.segs,
                 w.past.protections, f);
    PushTails(w.mem.tails, w.disk.ledger.manifests, w.past.accepted, f.id, f.raw);
  }

  lemma PushHere(w: World, f: Frame)
    requires w.past.segs != []
    ensures Put(w.past.segs, f).at == Here(Last(w.past.segs)) && Put(w.past.segs, f).frame == f
    ensures ExtendedLast(w.past.segs, f) != []
  {
  }
}
