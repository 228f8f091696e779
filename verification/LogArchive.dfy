/** Archive authorities: enabling, resizing and releasing what an export still needs. */
module LogArchive {
  import opened Prelude
  import opened FrameFormat
  import opened LogLayout
  import opened LogState
  import opened ThreadLaws
  import opened LogWrites
  import opened LogSeal
  import opened LogMembers

  const ARCHIVE_RESERVE: nat := 8192

  // Bytes an archive pins: the reserve, the records above the release and their frames' headers.
  function PinnedBytes(p: Protection): nat {
    ARCHIVE_RESERVE + Less(p.latest.offset, p.released.offset) + FRAME_HEADER * Less(p.latest.seqNo, p.released.seqNo)
  }

  function Less(a: nat, b: nat): nat { if a >= b then a - b else 0 }

  function Grant(ledger: Ledger, d: Id, a: Authority): Ledger { ledger.(archives := ledger.archives[d := a]) }

  // The world after member `d` holds protection `p`, with this much newly charged.
  function Protected(w: World, d: Id, p: Protection, growth: nat): World
    requires d in w.mem.members
  {
    w.(mem := w.mem.(members := w.mem.members[d := w.mem.members[d].(archive := Some(p))],
                     charged := w.mem.charged + growth),
       disk := w.disk.(ledger := Grant(w.disk.ledger, d, Authority(p.maxBytes, p.released))),
       past := w.past.(protections := w.past.protections + growth))
  }

  lemma GrantStored(t: seq<Placed>, d: Id, ledger: Ledger, accepted: map<Id, seq<Raw>>, safe: nat, a: Authority)
    requires Stored(t, d, ledger, accepted, safe) && d in accepted
    requires a.released.seqNo <= DurableSeq(t, |ledger.manifests[d]|, safe) && CursorFits(a.released, accepted[d])
    requires Keep(ledger, d) <= Keep(Grant(ledger, d, a), d)
    ensures Stored(t, d, Grant(ledger, d, a), accepted, safe)
  {
    hide Thread, DurableSeq, CursorFits;
    var sealed := |ledger.manifests[d]|;
    CarriesSealed(t, accepted[d], sealed, Keep(ledger, d), safe, sealed, Keep(Grant(ledger, d, a), d));
  }

  lemma GrantOther(t: seq<Placed>, e: Id, ledger: Ledger, accepted: map<Id, seq<Raw>>, safe: nat, d: Id, a: Authority)
    requires Stored(t, e, ledger, accepted, safe) && e != d
    ensures Stored(t, e, Grant(ledger, d, a), accepted, safe)
  {
    hide Thread, Carries, DurableSeq;
  }

  lemma GrantThreads(ledger: Ledger, live: seq<Placed>, accepted: map<Id, seq<Raw>>, safe: nat, d: Id, a: Authority)
    requires Threads(ledger, live, accepted, safe) && d in accepted && d in ledger.manifests
    requires a.released.seqNo <= DurableSeq(Of(live, d), |ledger.manifests[d]|, safe)
    requires CursorFits(a.released, accepted[d])
    requires Keep(ledger, d) <= Keep(Grant(ledger, d, a), d)
    ensures Threads(Grant(ledger, d, a), live, accepted, safe)
  {
    hide Of, Stored, DurableSeq, CursorFits;
    var next := Grant(ledger, d, a);
    forall e | e in next.manifests ensures Stored(Of(live, e), e, next, accepted, safe) {
      if e == d {
        GrantStored(Of(live, d), d, ledger, accepted, safe, a);
      } else {
        GrantOther(Of(live, e), e, ledger, accepted, safe, d, a);
      }
    }
  }

  // What a member's memory must say about a new protection.
  predicate Agreed(m: Member, p: Protection, accepted: seq<Raw>, durable: nat) {
    && p.released.seqNo <= |accepted| && p.latest == CursorAt(p.released, accepted, |accepted|)
    && p.latest.offset <= U64_MAX
    && (m.lsn > durable ==> p.released.seqNo <= m.durableSeq <= |accepted|)
    && (m.lsn > durable ==> p.durable == CursorAt(p.released, accepted, m.durableSeq))
  }

  lemma GrantMembers(members: map<Id, Member>, live: seq<Placed>, ledger: Ledger, accepted: map<Id, seq<Raw>>,
                     durable: nat, here: Pointer, d: Id, p: Protection)
    requires Members(members, live, ledger, accepted, durable, here) && d in members && !members[d].retired
    requires d in accepted
    requires Agreed(members[d], p, accepted[d], durable)
    ensures Members(members[d := members[d].(archive := Some(p))], live,
                    Grant(ledger, d, Authority(p.maxBytes, p.released)), accepted, durable, here)
  {
    hide Of, DurableSeq, Until, CursorAt;
    var after := members[d := members[d].(archive := Some(p))];
    var next := Grant(ledger, d, Authority(p.maxBytes, p.released));
    forall e | e in after ensures Known(Of(live, e), e, after[e], next, accepted, durable, here) {
      assert Known(Of(live, e), e, members[e], ledger, accepted, durable, here);
    }
  }

  predicate MayProtect(w: World, d: Id, p: Protection, growth: nat) {
    && MayRetire(w, d) && w.mem.charged + growth <= w.options.indexBytes
    && d in w.past.accepted && d in w.disk.ledger.manifests
    && Agreed(w.mem.members[d], p, w.past.accepted[d], w.mem.durable)
    && p.released.seqNo <= ReportedSeq(w.mem.members[d], w.mem.durable)
    && (d in w.disk.ledger.archives ==> w.disk.ledger.archives[d].released.seqNo <= p.released.seqNo)
    && (d !in w.disk.ledger.archives ==> |w.disk.ledger.manifests[d]| <= p.released.seqNo)
  }

  lemma ProtectOnDisk(w: World, d: Id, p: Protection, growth: nat)
    requires MayProtect(w, d, p, growth)
    ensures OnDisk(w.(disk := w.disk.(ledger := Grant(w.disk.ledger, d, Authority(p.maxBytes, p.released)))))
  {
    hide Layout, Active, Accounts, Threads, Members, Tails, Live, Of, Known, Stored, Here, DurableSeq, Agreed;
    MemberReady(w, d);
    ProtectReady(w, d, p, growth);
    var a := Authority(p.maxBytes, p.released);
    GrantThreads(w.disk.ledger, Live(w.past.segs), w.past.accepted, w.past.safe, d, a);
    LayoutSame(w.owner, w.disk, w.past, Grant(w.disk.ledger, d, a), w.past);
  }

  lemma ProtectReady(w: World, d: Id, p: Protection, growth: nat)
    requires MayProtect(w, d, p, growth)
    ensures p.released.seqNo <= DurableSeq(Of(Live(w.past.segs), d), |w.disk.ledger.manifests[d]|, w.past.safe)
    ensures CursorFits(p.released, w.past.accepted[d])
    ensures Keep(w.disk.ledger, d) <= Keep(Grant(w.disk.ledger, d, Authority(p.maxBytes, p.released)), d)
  {
    hide Layout, Active, Accounts, Members, Threads, Tails, Live, Of, Stored, Here, DurableSeq, ArchiveAgrees, CursorAt;
    MemberReady(w, d);
    ReportExact(Of(Live(w.past.segs), d), d, w.mem.members[d], w.disk.ledger, w.past.accepted, w.mem.durable,
                Here(Last(w.past.segs)));
  }

  /** A protection that covers what is durable keeps the invariant. */
  lemma ProtectKeeps(w: World, d: Id, p: Protection, growth: nat)
    requires MayProtect(w, d, p, growth)
    ensures Healthy(Protected(w, d, p, growth))
  {
    hide Layout, Active, Accounts, Threads, Members, Tails, Live, Of, Known, Stored, Here, DurableSeq, Agreed;
    MemberReady(w, d);
    ProtectOnDisk(w, d, p, growth);
    var v := Protected(w, d, p, growth);
    LayoutSame(w.owner, w.disk, w.past, v.disk.ledger, v.past);
    ActiveSame(w.options, w.owner, w.mem, w.disk.files, w.disk.stable, w.past, v.mem, v.past);
    GrantMembers(w.mem.members, Live(w.past.segs), w.disk.ledger, w.past.accepted, w.mem.durable,
                 Here(Last(w.past.segs)), d, p);
    ProtectAccounts(w.options, w.mem.storage, w.mem.charged, w.mem.segments, w.disk.ledger.registry, w.past.segs,
                    w.past.protections, growth);
  }

  lemma ProtectAccounts(options: Options, storage: nat, charged: nat, segments: seq<Segment>,
                        registry: seq<Registration>, segs: seq<Seg>, protections: nat, growth: nat)
    requires Accounts(options, storage, charged, segments, registry, segs, protections)
    requires charged + growth <= options.indexBytes
    ensures Accounts(options, storage, charged + growth, segments, registry, segs, protections + growth)
  {
    hide SegmentsAgree, Storage, Charges, RegistryCharge;
  }

  // ------------------------------------------------------------------ cursors

  lemma ReleaseAgrees(m: Member, d: Id, ledger: Ledger, accepted: seq<Raw>, durable: nat, through: Cursor)
    requires ArchiveAgrees(m.archive, d, ledger, accepted, m.lsn > durable, m.durableSeq) && m.archive.Some?
    requires m.seqNo == |accepted|
    requires m.archive.value.released.seqNo <= through.seqNo <= ReportedSeq(m, durable) <= |accepted|
    requires through == CursorAt(m.archive.value.released, accepted, through.seqNo)
    ensures Agreed(m, m.archive.value.(released := through), accepted, durable)
  {
    hide CursorAt;
    var p := m.archive.value;
    CursorShift(p.released, accepted, through.seqNo, |accepted|);
    if m.lsn > durable { CursorShift(p.released, accepted, through.seqNo, m.durableSeq); }
  }

  // --------------------------------------------------------------- the choices

  function FirstCursor(m: Member): Cursor { Cursor(m.seqNo, 32) }

  /** The first protection of a durable member covers everything it holds. */
  lemma MayEnable(w: World, d: Id, maxBytes: nat)
    requires MayRetire(w, d) && w.mem.members[d].lsn <= w.mem.durable && w.mem.members[d].archive.None?
    requires w.mem.charged + PROTECTION_CHARGE <= w.options.indexBytes
    ensures var c := FirstCursor(w.mem.members[d]);
            MayProtect(w, d, Protection(maxBytes, c, c, c), PROTECTION_CHARGE)
  {
    hide Layout, Active, Accounts, Threads, Members, Tails, Live, Of, Here, DurableSeq, Thread, Carries, RawBytes;
    MemberReady(w, d);
    CursorSelf(FirstCursor(w.mem.members[d]), w.past.accepted[d]);
    EnableBound(w, d);
  }

  lemma EnableBound(w: World, d: Id)
    requires MayRetire(w, d)
    ensures d in w.disk.ledger.manifests && d in w.past.accepted && |w.disk.ledger.manifests[d]| <= |w.past.accepted[d]|
  {
    hide Layout, Active, Accounts, Threads, Members, Tails, Live, Of, Here, DurableSeq, Thread, ArchiveAgrees,
         CursorFits;
    MemberReady(w, d);
  }

  /** A quota may be changed whenever the pinned bytes fit it. */
  lemma MayResize(w: World, d: Id, maxBytes: nat)
    requires MayRetire(w, d) && w.mem.members[d].archive.Some?
    ensures MayProtect(w, d, w.mem.members[d].archive.value.(maxBytes := maxBytes), 0)
  {
    hide Layout, Active, Threads, Members, Tails, Live, Of, Here, DurableSeq, Thread, Carries, CursorAt, Storage,
         Charges, RegistryCharge, SegmentsAgree;
    MemberReady(w, d);
    ReportExact(Of(Live(w.past.segs), d), d, w.mem.members[d], w.disk.ledger, w.past.accepted, w.mem.durable,
                Here(Last(w.past.segs)));
  }

  /** A release moves along the chain, not beyond what is durable. */
  lemma MayRelease(w: World, d: Id, through: Cursor)
    requires MayRetire(w, d) && w.mem.members[d].archive.Some? && d in w.past.accepted
    requires w.mem.members[d].archive.value.released.seqNo <= through.seqNo
    requires through.seqNo <= ReportedSeq(w.mem.members[d], w.mem.durable) <= |w.past.accepted[d]|
    requires through == CursorAt(w.mem.members[d].archive.value.released, w.past.accepted[d], through.seqNo)
    ensures MayProtect(w, d, w.mem.members[d].archive.value.(released := through), 0)
  {
    hide Layout, Active, Threads, Members, Tails, Live, Of, Here, DurableSeq, Thread, Carries, CursorAt, Storage,
         Charges, RegistryCharge, SegmentsAgree;
    MemberReady(w, d);
    ReleaseAgrees(w.mem.members[d], d, w.disk.ledger, w.past.accepted[d], w.mem.durable, through);
  }

  // Charging the index without using the charge keeps the invariant.
  lemma ChargeKeeps(w: World, growth: nat)
    requires Healthy(w) && w.mem.charged + growth <= w.options.indexBytes
    ensures Healthy(w.(mem := w.mem.(charged := w.mem.charged + growth),
                       past := w.past.(protections := w.past.protections + growth)))
  {
    hide Layout, Active, Threads, Members, Tails, Live, Here, Accounts;
    var v := w.(mem := w.mem.(charged := w.mem.charged + growth),
                past := w.past.(protections := w.past.protections + growth));
    LayoutSame(w.owner, w.disk, w.past, w.disk.ledger, v.past);
    ActiveSame(w.options, w.owner, w.mem, w.disk.files, w.disk.stable, w.past, v.mem, v.past);
    ProtectAccounts(w.options, w.mem.storage, w.mem.charged, w.mem.segments, w.disk.ledger.registry, w.past.segs,
                    w.past.protections, growth);
    ActiveBounds(w);
  }
}
