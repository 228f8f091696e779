/** Reclaiming the oldest segments. */
module LogReclaim {
  import opened Prelude
  import opened FrameFormat
  import opened FrameRun
  import opened LogLayout
  import opened LogState
  import opened ThreadLaws
  import opened LogWrites
  import Sequences

  function ArchiveLimit(m: Member): nat {
    match m.archive case None => U64_MAX case Some(p) => p.released.seqNo
  }

  // Whether the log may forget a member's frames up to this sequence number.
  predicate Releasable(m: Member, seqNo: nat) {
    m.retired || (seqNo <= m.checkpoint && seqNo <= ArchiveLimit(m))
  }

  predicate Reclaimable(members: map<Id, Member>, s: Segment) {
    forall d | d in s.members :: d in members && Releasable(members[d], s.members[d])
  }

  /** How many of the oldest segments can go: everything before the first blocked or active one. */
  function ReclaimCount(members: map<Id, Member>, segments: seq<Segment>, active: nat): (k: nat)
    ensures k <= |segments|
    ensures forall i | 0 <= i < k :: Reclaimable(members, segments[i]) && segments[i].number != active
    ensures k < |segments| ==> segments[k].number == active || !Reclaimable(members, segments[k])
  {
    if segments == [] || segments[0].number == active || !Reclaimable(members, segments[0]) then 0
    else 1 + ReclaimCount(members, segments[1..], active)
  }

  function Numbers(segs: seq<Seg>): set<nat> { set i | 0 <= i < |segs| :: segs[i].number }

  function Reclaimed(w: World, k: nat): World
    requires k <= |w.past.segs| == |w.disk.files| == |w.mem.segments|
    requires Storage(w.past.segs[..k]) <= w.mem.storage && Charges(w.past.segs[..k]) <= w.mem.charged
  {
    World(w.options, w.owner,
          w.mem.(storage := w.mem.storage - Storage(w.past.segs[..k]),
                 charged := w.mem.charged - Charges(w.past.segs[..k]),
                 segments := w.mem.segments[k..]),
          w.disk.(files := w.disk.files[k..], boundaries := w.disk.boundaries - Numbers(w.past.segs[..k])),
          w.past.(segs := w.past.segs[k..]))
  }

  // ---------------------------------------------------------- what is lost

  /** The last reclaimed frame of every member was releasable. */
  lemma {:induction false} ReclaimedEnd(segs: seq<Seg>, segments: seq<Segment>, members: map<Id, Member>, k: nat, d: Id)
    requires SegmentsAgree(segments, segs) && k <= |segs|
    requires forall i | 0 <= i < k :: Reclaimable(members, segments[i])
    ensures var t := Of(Live(segs[..k]), d);
            t != [] ==> d in members && Releasable(members[d], Last(t).frame.seqNo)
  {
    if k > 0 {
      hide Of, Live, Places, Summary, Releasable, Length;
      var n := k - 1;
      var s := segs[n];
      ReclaimedEnd(segs, segments, members, n, d);
      Sequences.Around(segs, n);
      LiveSnoc(segs[..n], s);
      OfConcat(Live(segs[..n]), Places(s.number, s.frames), d);
      SummaryIsThreadEnd(s.number, s.frames, d);
      assert segments[n] == SegmentOf(s);
      assert Reclaimable(members, segments[n]);
    } else {
      assert segs[..k] == [];
      LiveNone(segs[..k]);
    }
  }

  /** Everything before the last segment is stable. */
  lemma OldIsStable(segs: seq<Seg>, stable: nat, safe: nat, k: nat)
    requires SegsOk(segs) && StableOk(segs, stable, safe) && k < |segs|
    ensures forall p | p in Live(segs[..k]) :: p.frame.lsn <= safe
  {
    hide SegOk, Live;
    if k > 0 {
      SegsTake(segs, k);
      LiveBefore(segs[..k]);
      FirstsIncrease(segs, k - 1, |segs| - 1);
    } else {
      LiveNone(segs[..k]);
    }
  }

  // ------------------------------------------------------------- the members

  lemma UntilDrop(t: seq<Placed>, k: nat, lsn: nat)
    requires Thread(t) && k <= |t| && (k > 0 ==> t[k - 1].frame.lsn <= lsn)
    ensures k <= |Until(t, lsn)| && Until(t[k..], lsn) == Until(t, lsn)[k..]
  {
    ThreadDrop(t, k);
    UntilExact(t, lsn);
    UntilExact(t[k..], lsn);
    UntilIndex(t, lsn);
    UntilIndex(t[k..], lsn);
    var a, b := |Until(t, lsn)|, |Until(t[k..], lsn)|;
    assert b < |t| - k ==> t[k..][b] == t[k + b];
    assert a < |t| && k <= a ==> t[k..][a - k] == t[a];
    assert k > 0 ==> k - 1 < a;
  }

  lemma DropStored(a: seq<Placed>, b: seq<Placed>, d: Id, m: Member, ledger: Ledger, accepted: map<Id, seq<Raw>>,
                   safe: nat, here: Pointer)
    requires Stored(a + b, d, ledger, accepted, safe) && Known(a + b, d, m, ledger, accepted, safe, here)
    requires a != [] ==> Releasable(m, Last(a).frame.seqNo)
    ensures Stored(b, d, ledger, accepted, safe)
  {
    hide Until, Thread, Carries, CursorAt, DurableSeq, Below;
    var t := a + b;
    Sequences.Parts(a, b);
    ThreadDrop(t, |a|);
    if !m.retired {
      CarriesDrop(t, |a|, accepted[d], |ledger.manifests[d]|, Keep(ledger, d), safe);
    }
  }

  lemma DropKnown(a: seq<Placed>, b: seq<Placed>, d: Id, m: Member, ledger: Ledger, accepted: map<Id, seq<Raw>>,
                  safe: nat, here: Pointer)
    requires Stored(a + b, d, ledger, accepted, safe) && Known(a + b, d, m, ledger, accepted, safe, here)
    requires a != [] ==> Releasable(m, Last(a).frame.seqNo)
    requires forall p | p in a :: p.frame.lsn <= safe
    ensures Known(b, d, m, ledger, accepted, safe, here)
  {
    hide Until, Thread, Carries, CursorAt, DurableSeq, Below;
    var t := a + b;
    Sequences.Parts(a, b);
    if a != [] { assert Last(a) in a; }
    UntilDrop(t, |a|, safe);
    if !m.retired {
      DropDurable(t, |a|, accepted[d], |ledger.manifests[d]|, Keep(ledger, d), safe);
    }
  }

  lemma DropThreads(ledger: Ledger, a: seq<Placed>, b: seq<Placed>, accepted: map<Id, seq<Raw>>, safe: nat,
                    members: map<Id, Member>, here: Pointer)
    requires Threads(ledger, a + b, accepted, safe) && Members(members, a + b, ledger, accepted, safe, here)
    requires forall d | d in members && Of(a, d) != [] :: Releasable(members[d], Last(Of(a, d)).frame.seqNo)
    requires forall p | p in a :: p.frame.lsn <= safe
    ensures Threads(ledger, b, accepted, safe) && Members(members, b, ledger, accepted, safe, here)
  {
    hide Stored, Of, Known, RegistryOk, Releasable;
    forall d | d in ledger.manifests
      ensures Stored(Of(b, d), d, ledger, accepted, safe)
      ensures Known(Of(b, d), d, members[d], ledger, accepted, safe, here)
    {
      assert d in members.Keys;
      OfConcat(a, b, d);
      forall p | p in Of(a, d) ensures p.frame.lsn <= safe { OfMembers(a, d, p); }
      DropStored(Of(a, d), Of(b, d), d, members[d], ledger, accepted, safe, here);
      DropKnown(Of(a, d), Of(b, d), d, members[d], ledger, accepted, safe, here);
    }
  }

  // -------------------------------------------------------------- the layout

  lemma DropFiles(owner: Owner, files: seq<File>, segs: seq<Seg>, stable: nat, k: nat)
    requires FilesOk(owner, files, segs, stable) && k < |segs|
    ensures FilesOk(owner, files[k..], segs[k..], stable)
  {
    hide Content, LastFileOk;
  }

  lemma DroppedNumbers(segs: seq<Seg>, k: nat, n: nat)
    requires SegsOk(segs) && k < |segs| && segs[0].number <= n <= Last(segs).number
    ensures n in Numbers(segs[..k]) <==> n < segs[k].number
  {
    hide SegsOk;
    NumbersConsecutive(segs, k);
    var i := n - segs[0].number;
    NumbersConsecutive(segs, |segs| - 1);
    NumbersConsecutive(segs, i);
    if i < k { assert segs[..k][i].number == n; }
    forall j | 0 <= j < k ensures segs[..k][j].number < segs[k].number { NumbersConsecutive(segs, j); }
  }

  lemma DropBoundaries(owner: Owner, boundaries: map<nat, Boundary>, segs: seq<Seg>, k: nat)
    requires BoundariesOk(owner, boundaries, segs) && SegsOk(segs) && k < |segs|
    ensures BoundariesOk(owner, boundaries - Numbers(segs[..k]), segs[k..])
  {
    hide Fenced, BoundaryOf, SegsOk, Numbers;
    var left := boundaries - Numbers(segs[..k]);
    var rest := segs[k..];
    forall n | n in left ensures rest != [] && rest[0].number <= n <= Last(rest).number {
      DroppedNumbers(segs, k, n);
    }
    forall i | 0 <= i < |rest|
      ensures rest[i].number in left <==> segs[k + i].number in boundaries
    {
      NumbersConsecutive(segs, k);
      NumbersConsecutive(segs, k + i);
      NumbersConsecutive(segs, |segs| - 1);
      DroppedNumbers(segs, k, segs[k + i].number);
    }
    forall i | 0 <= i < |rest| && rest[i].number in left
      ensures Fenced(rest[i]) && left[rest[i].number] == BoundaryOf(owner, rest[i])
    {
      assert segs[k + i].number in boundaries;
    }
    forall i | 0 <= i < |rest| - 1 && Fenced(rest[i]) ensures rest[i].number in left {
      assert Fenced(segs[k + i]);
    }
  }

  lemma DropLayout(owner: Owner, disk: Disk, past: History, k: nat)
    requires Layout(owner, disk, past) && k < |past.segs| && (past.segs[k].whole || past.segs[k].first == 1)
    requires SEGMENT_HEADER <= disk.stable
    ensures Layout(owner, disk.(files := disk.files[k..], boundaries := disk.boundaries - Numbers(past.segs[..k])),
                   past.(segs := past.segs[k..]))
  {
    hide SegsOk, FilesOk, BoundariesOk, Size, Numbers;
    SegsDrop(past.segs, k);
    DropFiles(owner, disk.files, past.segs, disk.stable, k);
    DropBoundaries(owner, disk.boundaries, past.segs, k);
  }

  lemma DropAccounts(options: Options, storage: nat, charged: nat, segments: seq<Segment>, registry: seq<Registration>,
                     segs: seq<Seg>, protections: nat, k: nat)
    requires Accounts(options, storage, charged, segments, registry, segs, protections) && k <= |segs|
    ensures Storage(segs[..k]) <= storage && Charges(segs[..k]) <= charged
    ensures Accounts(options, storage - Storage(segs[..k]), charged - Charges(segs[..k]), segments[k..], registry,
                     segs[k..], protections)
  {
    hide Storage, Charges, RegistryCharge, SegmentOf;
    Sequences.Cut(segs, k);
    AccountConcat(segs[..k], segs[k..]);
  }

  lemma DropActive(options: Options, owner: Owner, mem: Memory, files: seq<File>, stable: nat, past: History, k: nat,
                   storage: nat, charged: nat)
    requires Active(options, owner, mem, files, stable, past) && k < |past.segs| == |files| && |mem.segments| == |files|
    ensures Active(options, owner, mem.(storage := storage, charged := charged, segments := mem.segments[k..]),
                   files[k..], stable, past.(segs := past.segs[k..]))
  {
    hide Content, Fenced, Length, Next;
  }

  /** What a reclaiming pass may drop: releasable segments, up to a segment with a header. */
  predicate MayReclaim(w: World, k: nat) {
    && Healthy(w) && k < |w.past.segs| == |w.mem.segments| == |w.disk.files|
    && (forall i | 0 <= i < k :: Reclaimable(w.mem.members, w.mem.segments[i]))
    && w.past.segs[k].whole
  }

  lemma ReclaimReady(w: World, k: nat)
    requires MayReclaim(w, k)
    ensures Storage(w.past.segs[..k]) <= w.mem.storage && Charges(w.past.segs[..k]) <= w.mem.charged
    ensures w.past.safe == w.mem.durable && SEGMENT_HEADER <= w.disk.stable
    ensures Live(w.past.segs) == Live(w.past.segs[..k]) + Live(w.past.segs[k..])
    ensures forall d | d in w.mem.members && Of(Live(w.past.segs[..k]), d) != [] ::
              Releasable(w.mem.members[d], Last(Of(Live(w.past.segs[..k]), d)).frame.seqNo)
    ensures forall p | p in Live(w.past.segs[..k]) :: p.frame.lsn <= w.past.safe
  {
    hide FilesOk, BoundariesOk, StableOk, SegsOk, SegmentsAgree, Threads, Members, Tails, Live, Of, Reclaimable,
         Releasable,
         Storage, Charges, RegistryCharge, Content, Fenced, Size, Summary;
    DropAccounts(w.options, w.mem.storage, w.mem.charged, w.mem.segments, w.disk.ledger.registry, w.past.segs,
                 w.past.protections, k);
    Sequences.Cut(w.past.segs, k);
    LiveConcat(w.past.segs[..k], w.past.segs[k..]);
    forall d | d in w.mem.members && Of(Live(w.past.segs[..k]), d) != []
      ensures Releasable(w.mem.members[d], Last(Of(Live(w.past.segs[..k]), d)).frame.seqNo)
    {
      ReclaimedEnd(w.past.segs, w.mem.segments, w.mem.members, k, d);
    }
    OldIsStable(w.past.segs, w.disk.stable, w.past.safe, k);
  }

  /** Reclaiming keeps the invariant: no member loses a frame that a replay or an export needs. */
  lemma ReclaimKeeps(w: World, k: nat)
    requires MayReclaim(w, k)
    ensures Storage(w.past.segs[..k]) <= w.mem.storage && Charges(w.past.segs[..k]) <= w.mem.charged
    ensures Healthy(Reclaimed(w, k))
  {
    hide Layout, Threads, Members, Tails, Accounts, Active, Live, Of, Reclaimable, Releasable,
         Storage, Charges, Content, Fenced, Size, Numbers;
    ReclaimReady(w, k);
    DropLayout(w.owner, w.disk, w.past, k);
    DropThreads(w.disk.ledger, Live(w.past.segs[..k]), Live(w.past.segs[k..]), w.past.accepted, w.past.safe,
                w.mem.members, Here(Last(w.past.segs)));
    DropAccounts(w.options, w.mem.storage, w.mem.charged, w.mem.segments, w.disk.ledger.registry, w.past.segs,
                 w.past.protections, k);
    DropActive(w.options, w.owner, w.mem, w.disk.files, w.disk.stable, w.past, k,
               w.mem.storage - Storage(w.past.segs[..k]), w.mem.charged - Charges(w.past.segs[..k]));
  }

  /** A reclaiming pass stops at a segment with a header: the active one, or one with frames. */
  lemma ReclaimStops(w: World)
    requires Healthy(w)
    ensures MayReclaim(w, ReclaimCount(w.mem.members, w.mem.segments, w.mem.segment))
  {
    hide Threads, Members, Tails, Live, StableOk, BoundariesOk, Storage, Charges, RegistryCharge, Content, Size,
         LegalFrames, Summary;
    var k := ReclaimCount(w.mem.members, w.mem.segments, w.mem.segment);
    var n := |w.past.segs| - 1;
    assert w.mem.segments[n] == SegmentOf(w.past.segs[n]);
    assert w.mem.segments[n].number == w.mem.segment;
    assert InPlace(w.past.segs, k);
    assert w.mem.segments[k] == SegmentOf(w.past.segs[k]);
    NoEntries(w.past.segs[k].frames);
    assert w.past.segs[k].frames == [] ==> Reclaimable(w.mem.members, w.mem.segments[k]);
    if k < n { FirstsIncrease(w.past.segs, k, n); }
  }

  lemma NoEntries(fs: seq<Frame>)
    ensures fs == [] ==> Summary(fs) == map[]
  {
  }
}
