/** Starting a new segment. */
module LogRoll {
  import opened Prelude
  import opened FrameFormat
  import opened FrameRun
  import opened LogLayout
  import opened LogState
  import opened LogWrites
  import Sequences

  function Fresh(number: nat, first: nat): Seg { Seg(number, first, [], true, []) }

  lemma FreshContent(owner: Owner, number: nat, first: nat)
    ensures Content(owner, Fresh(number, first)) == EncodeHeader(owner, number, first)
    ensures Length(Fresh(number, first)) == SEGMENT_HEADER
    ensures SegmentOf(Fresh(number, first)) == Segment(number, SEGMENT_HEADER, map[])
    ensures |EncodeHeader(owner, number, first)| == SEGMENT_HEADER
  {
    HeaderLength(owner, number, first);
    hide EncodeHeader;
  }

  /** A new last file, whole or cut short, continues a log whose bytes are all stable. */
  lemma CreateLayout(owner: Owner, disk: Disk, past: History, number: nat, first: nat, bytes: seq<Byte>, stable: nat)
    requires Layout(owner, disk, past)
    requires 1 <= number <= U64_MAX && 1 <= first <= U64_MAX && first == past.safe + 1
    requires past.segs != [] ==>
      number == Last(past.segs).number + 1 && first == Next(Last(past.segs))
        && Last(disk.files).bytes == Content(owner, Last(past.segs))
      && (Fenced(Last(past.segs)) ==> Last(past.segs).number in disk.boundaries)
    requires bytes <= EncodeHeader(owner, number, first) && stable <= |bytes|
    ensures Layout(owner, disk.(files := disk.files + [File(number, bytes)], stable := stable),
                   past.(segs := past.segs + [Fresh(number, first)]))
  {
    hide Content, EncodeHeader, SegOk, LegalFrames, Fenced, BoundaryOf, SegsOk;
    FreshContent(owner, number, first);
    FreshOk(number, first);
    SegsAdd(past.segs, Fresh(number, first));
    CreateBoundaries(owner, disk.boundaries, past.segs, Fresh(number, first));
  }

  lemma FreshOk(number: nat, first: nat)
    requires 1 <= number <= U64_MAX && 1 <= first <= U64_MAX
    ensures SegOk(Fresh(number, first)) && !Fenced(Fresh(number, first))
  {
  }

  lemma CreateBoundaries(owner: Owner, boundaries: map<nat, Boundary>, segs: seq<Seg>, s: Seg)
    requires BoundariesOk(owner, boundaries, segs) && !Fenced(s)
    requires segs != [] ==>
      s.number == Last(segs).number + 1 && (Fenced(Last(segs)) ==> Last(segs).number in boundaries)
    ensures BoundariesOk(owner, boundaries, segs + [s])
  {
    hide Fenced, BoundaryOf;
  }

  lemma FreshLive(segs: seq<Seg>, number: nat, first: nat)
    ensures Live(segs + [Fresh(number, first)]) == Live(segs)
  {
    hide Live;
    LiveSnoc(segs, Fresh(number, first));
    Sequences.Neutral(Live(segs));
  }

  lemma KnownLater(t: seq<Placed>, d: Id, m: Member, ledger: Ledger, accepted: map<Id, seq<Raw>>, durable: nat,
                   here: Pointer, later: Pointer)
    requires Known(t, d, m, ledger, accepted, durable, here) && Below(here, later)
    ensures Known(t, d, m, ledger, accepted, durable, later)
  {
    hide DurableSeq, Until, ArchiveAgrees;
  }

  lemma MembersLater(members: map<Id, Member>, live: seq<Placed>, ledger: Ledger, accepted: map<Id, seq<Raw>>,
                     durable: nat, here: Pointer, later: Pointer)
    requires Members(members, live, ledger, accepted, durable, here) && Below(here, later)
    ensures Members(members, live, ledger, accepted, durable, later)
  {
    hide Known, Of, Below;
    forall d | d in members ensures Known(Of(live, d), d, members[d], ledger, accepted, durable, later) {
      KnownLater(Of(live, d), d, members[d], ledger, accepted, durable, here, later);
    }
  }

  lemma FreshAccounts(options: Options, storage: nat, charged: nat, segments: seq<Segment>, registry: seq<Registration>,
                      segs: seq<Seg>, protections: nat, number: nat, first: nat)
    requires Accounts(options, storage, charged, segments, registry, segs, protections)
    requires storage + SEGMENT_HEADER <= options.maxBytes && charged + SEGMENT_CHARGE <= options.indexBytes
    ensures Accounts(options, storage + SEGMENT_HEADER, charged + SEGMENT_CHARGE,
                     segments + [Segment(number, SEGMENT_HEADER, map[])],
                     registry, segs + [Fresh(number, first)], protections)
  {
    hide Storage, Charges, RegistryCharge, SegmentOf;
    AccountSnoc(segs, Fresh(number, first));
    FreshContent(seq(16, _ => 0), number, first);
  }

  // -------------------------------------------------------------- the steps

  function Created(w: World): World
    requires w.past.segs != []
  {
    var number, first := w.mem.segment + 1, w.mem.lsn + 1;
    World(w.options, w.owner,
          w.mem.(segment := number, offset := SEGMENT_HEADER, storage := w.mem.storage + SEGMENT_HEADER,
                 charged := w.mem.charged + SEGMENT_CHARGE,
                 segments := w.mem.segments + [Segment(number, SEGMENT_HEADER, map[])]),
          w.disk.(files := w.disk.files + [File(number, EncodeHeader(w.owner, number, first))],
                  stable := SEGMENT_HEADER),
          w.past.(segs := w.past.segs + [Fresh(number, first)]))
  }

  // The new file after a fault: some bytes of its header.
  function HalfCreated(w: World, n: nat): World
    requires n <= SEGMENT_HEADER
  {
    var number, first := w.mem.segment + 1, w.mem.lsn + 1;
    HeaderLength(w.owner, number, first);
    w.(disk := w.disk.(files := w.disk.files + [File(number, EncodeHeader(w.owner, number, first)[..n])], stable := 0),
       past := w.past.(segs := w.past.segs + [Fresh(number, first)]))
  }

  predicate MayRoll(w: World) {
    && Healthy(w) && w.mem.durable == w.mem.lsn
    && w.mem.segment < U64_MAX && w.mem.lsn < U64_MAX
  }

  lemma RollReady(w: World)
    requires MayRoll(w)
    ensures w.past.segs != [] && w.disk.files != [] && w.mem.buffer == []
    ensures var s := Last(w.past.segs);
            && w.mem.segment == s.number && w.mem.lsn + 1 == Next(s) == w.past.safe + 1 && !Fenced(s)
            && Last(w.disk.files).bytes == Content(w.owner, s)
  {
    hide Content, Layout, Threads, Accounts, Members, Tails, Size, Fenced;
    Sequences.Neutral(Last(w.disk.files).bytes);
  }

  /** A creation that fails half way leaves a log that recovery can open. */
  lemma HalfCreateOnDisk(w: World, n: nat)
    requires MayRoll(w) && n <= SEGMENT_HEADER
    ensures OnDisk(HalfCreated(w, n))
  {
    hide Content, Layout, Threads, Active, Accounts, Members, Tails, Size, Fenced, EncodeHeader, Live, Next;
    RollReady(w);
    var number, first := w.mem.segment + 1, w.mem.lsn + 1;
    HeaderLength(w.owner, number, first);
    CreateLayout(w.owner, w.disk, w.past, number, first, EncodeHeader(w.owner, number, first)[..n], 0);
    FreshLive(w.past.segs, number, first);
  }

  lemma RollActive(w: World)
    requires MayRoll(w) && w.past.segs != []
    ensures Active(w.options, w.owner, Created(w).mem, Created(w).disk.files, Created(w).disk.stable, Created(w).past)
  {
    hide Content, Layout, Threads, Accounts, Members, Tails, EncodeHeader;
    RollReady(w);
    FreshContent(w.owner, w.mem.segment + 1, w.mem.lsn + 1);
    FreshOk(w.mem.segment + 1, w.mem.lsn + 1);
  }

  /** Rolling starts an empty segment behind everything accepted so far. */
  lemma RollKeeps(w: World)
    requires MayRoll(w)
    requires w.mem.storage + SEGMENT_HEADER <= w.options.maxBytes
    requires w.mem.charged + SEGMENT_CHARGE <= w.options.indexBytes
    ensures w.past.segs != [] && Healthy(Created(w))
  {
    hide Content, Layout, Threads, Active, Accounts, Members, Tails, Size, Fenced, EncodeHeader, Live, Next;
    RollReady(w);
    RollActive(w);
    var number, first := w.mem.segment + 1, w.mem.lsn + 1;
    HeaderLength(w.owner, number, first);
    CreateLayout(w.owner, w.disk, w.past, number, first, EncodeHeader(w.owner, number, first), SEGMENT_HEADER);
    FreshLive(w.past.segs, number, first);
    FreshAccounts(w.options, w.mem.storage, w.mem.charged, w.mem.segments, w.disk.ledger.registry, w.past.segs,
                  w.past.protections, number, first);
    MembersLater(w.mem.members, Live(w.past.segs), w.disk.ledger, w.past.accepted, w.mem.durable,
                 Here(Last(w.past.segs)), Here(Fresh(number, first)));
  }
}
