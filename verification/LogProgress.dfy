/** Every step of the open log refines the promise of `LogRuns`. */
module LogProgress {
  import opened FrameFormat
  import opened LogLayout
  import opened LogState
  import opened ThreadLaws
  import opened LogWrites
  import opened LogRoll
  import opened LogPush
  import opened LogReclaim
  import opened LogSeal
  import opened LogMembers
  import opened LogArchive
  import opened LogCrash
  import opened LogRuns
  import Sequences

  lemma FlushSame(w: World)
    requires w.disk.files != []
    ensures LogsOf(Flushed(w)) == LogsOf(w)
  {
    hide Live, Of, DurableSeq, WriteTo;
    SameLogs(w, Flushed(w));
  }

  lemma CreateSame(w: World)
    requires w.past.segs != []
    ensures LogsOf(Created(w)) == LogsOf(w)
  {
    hide Live, Of, DurableSeq, EncodeHeader;
    FreshLive(w.past.segs, w.mem.segment + 1, w.mem.lsn + 1);
    SameLogs(w, Created(w));
  }

  /** A protection changes no record; the release it holds may move along its chain. */
  lemma ProtectGrows(w: World, d: Id, p: Protection, growth: nat)
    requires d in w.mem.members && d in w.past.accepted
    requires d in w.disk.ledger.archives ==> Follows(w.disk.ledger.archives[d].released, p.released, w.past.accepted[d])
    ensures Grows(LogsOf(w), LogsOf(Protected(w, d, p, growth)))
  {
    hide Live, Of, DurableSeq, CursorAt, Until;
  }

  // Nothing durable moves when a frame is accepted.
  lemma PushDurableOf(w: World, f: Frame, d: Id)
    requires MayPush(w, f) && w.past.segs != [] && f.id in w.past.accepted && d in w.disk.ledger.manifests
    ensures DurableOf(Pushed(w, f), d) == DurableOf(w, d)
  {
    hide MayPush, Live, Of, DurableSeq, Content, Charged, EntryGrowth, Longer, Noted, ExtendedLast;
    PushReady(w, f);
    ExtendedLive(w.past.segs, f);
    var p := Put(w.past.segs, f);
    OfSnoc(Live(w.past.segs), p, d);
    if f.id == d {
      DurableUnmoved(Of(Live(w.past.segs), d), p, |w.disk.ledger.manifests[d]|, w.past.safe);
    } else {
      Sequences.Neutral(Of(Live(w.past.segs), d));
    }
  }

  // The frame that is accepted is not durable yet, and moves no other.
  lemma PushFrames(w: World, f: Frame, d: Id)
    requires MayPush(w, f) && w.past.segs != [] && f.id in w.past.accepted && d in w.disk.ledger.manifests
    ensures FramesOf(Pushed(w, f), d) == FramesOf(w, d)
  {
    hide MayPush, Live, Of, Until, Content, Charged, EntryGrowth, Longer, Noted, ExtendedLast;
    PushReady(w, f);
    ExtendedLive(w.past.segs, f);
    var p := Put(w.past.segs, f);
    OfSnoc(Live(w.past.segs), p, d);
    if f.id == d {
      UntilSnoc(Of(Live(w.past.segs), d), p, w.past.safe);
    } else {
      Sequences.Neutral(Of(Live(w.past.segs), d));
    }
  }

  /** Accepting a frame appends its record to one member and moves no durable end. */
  lemma PushGrows(w: World, f: Frame)
    requires MayPush(w, f)
    ensures w.past.segs != [] && f.id in w.past.accepted
    ensures Grows(LogsOf(w), LogsOf(Pushed(w, f)))
    ensures Pushed(w, f).past.accepted == w.past.accepted[f.id := w.past.accepted[f.id] + [f.raw]]
  {
    hide MayPush, DurableOf, FramesOf, Charged, EntryGrowth, Longer, Noted, ExtendedLast, CursorAt, EncodeFrame,
         FrameLength;
    PushReady(w, f);
    PushMember(w, f);
    PushCapacity(w, f);
    forall d | d in w.past.accepted && d in w.disk.ledger.manifests
      ensures DurableOf(Pushed(w, f), d) == DurableOf(w, d) && FramesOf(Pushed(w, f), d) == FramesOf(w, d)
    {
      PushDurableOf(w, f, d);
      PushFrames(w, f, d);
    }
  }

  lemma PushCapacity(w: World, f: Frame)
    requires MayPush(w, f)
    ensures w.mem.segments != [] && f.id in w.mem.members
  {
    hide Healthy, LegalFrame, EntryGrowth;
  }

  // Reclaimed frames were at or below what is sealed.
  lemma DropDurableOf(a: seq<Placed>, b: seq<Placed>, d: Id, m: Member, ledger: Ledger, accepted: map<Id, seq<Raw>>,
                      safe: nat, here: Pointer)
    requires Stored(a + b, d, ledger, accepted, safe) && Known(a + b, d, m, ledger, accepted, safe, here)
    requires d in accepted
    requires a != [] ==> Releasable(m, Last(a).frame.seqNo)
    ensures DurableSeq(b, |ledger.manifests[d]|, safe) == DurableSeq(a + b, |ledger.manifests[d]|, safe)
  {
    hide Until, Thread, Carries, CursorAt, DurableSeq, Below;
    Sequences.Parts(a, b);
    DropDurable(a + b, |a|, accepted[d], |ledger.manifests[d]|, Keep(ledger, d), safe);
  }

  lemma ReclaimDurableOf(w: World, k: nat, d: Id)
    requires MayReclaim(w, k) && d in w.past.accepted
    ensures d in w.disk.ledger.manifests
    ensures DurableSeq(Of(Live(w.past.segs[k..]), d), |w.disk.ledger.manifests[d]|, w.past.safe) == DurableOf(w, d)
  {
    hide Layout, Active, Accounts, Tails, Live, Of, Known, Stored, DurableSeq, Releasable, Reclaimable, RegistryOk,
         AllRegistered, Storage, Charges;
    ReclaimReady(w, k);
    var a, b := Live(w.past.segs[..k]), Live(w.past.segs[k..]);
    OfConcat(a, b, d);
    assert d in w.mem.members.Keys;
    DropDurableOf(Of(a, d), Of(b, d), d, w.mem.members[d], w.disk.ledger, w.past.accepted, w.past.safe,
                  Here(Last(w.past.segs)));
  }

  // No durable frame above a member's release is among the reclaimed ones.
  lemma ReclaimFrames(w: World, k: nat, d: Id, p: Placed)
    requires MayReclaim(w, k) && d in w.past.accepted && d in w.disk.ledger.archives
    requires w.disk.ledger.archives[d].released.seqNo < p.frame.seqNo
    requires Storage(w.past.segs[..k]) <= w.mem.storage && Charges(w.past.segs[..k]) <= w.mem.charged
    requires OnDisk(Reclaimed(w, k))
    ensures p in FramesOf(w, d) ==> p in FramesOf(Reclaimed(w, k), d)
  {
    hide OnDisk, FramesOf, Live, Of, Reclaimable, Storage, Charges, Numbers, MayReclaim;
    ReclaimSplit(w, k);
    FramesAre(w, d, p);
    FramesAre(Reclaimed(w, k), d, p);
    if p in Live(w.past.segs[..k]) && p.frame.id == d { ReclaimedBelow(w, k, d, p); }
  }

  lemma ReclaimSplit(w: World, k: nat)
    requires MayReclaim(w, k)
    ensures Live(w.past.segs) == Live(w.past.segs[..k]) + Live(w.past.segs[k..]) && OnDisk(w)
    ensures k <= |w.past.segs| == |w.disk.files| == |w.mem.segments|
  {
    hide OnDisk, Live, Accounts, Members, Tails, Reclaimable;
    ReclaimReady(w, k);
  }

  // What is reclaimed of a member lies at or below its release.
  lemma ReclaimedBelow(w: World, k: nat, d: Id, p: Placed)
    requires MayReclaim(w, k) && d in w.past.accepted && d in w.disk.ledger.archives
    requires k <= |w.past.segs| && p in Live(w.past.segs[..k]) && p.frame.id == d
    ensures p.frame.seqNo <= w.disk.ledger.archives[d].released.seqNo
  {
    hide Layout, Active, Accounts, Tails, Live, Of, Until, Carries, CursorAt, DurableSeq, Below, Reclaimable,
         RegistryOk, AllRegistered, Storage, Charges, Here;
    ReclaimReady(w, k);
    var a, b := Of(Live(w.past.segs[..k]), d), Of(Live(w.past.segs[k..]), d);
    OfConcat(Live(w.past.segs[..k]), Live(w.past.segs[k..]), d);
    OfMembers(Live(w.past.segs[..k]), d, p);
    assert Stored(Of(Live(w.past.segs), d), d, w.disk.ledger, w.past.accepted, w.past.safe);
    assert d in w.mem.members.Keys;
    assert Known(Of(Live(w.past.segs), d), d, w.mem.members[d], w.disk.ledger, w.past.accepted, w.mem.durable,
                 Here(Last(w.past.segs)));
    EndAbove(a, b, p);
  }

  lemma EndAbove(a: seq<Placed>, b: seq<Placed>, p: Placed)
    requires Thread(a + b) && p in a
    ensures a != [] && p.frame.seqNo <= Last(a).frame.seqNo
  {
    var i :| 0 <= i < |a| && a[i] == p;
    Sequences.Parts(a, b);
    assert (a + b)[i] == p && (a + b)[|a| - 1] == Last(a);
    ThreadNumbers(a + b, i, |a| - 1);
  }

  /** Reclaiming changes neither the records nor the durable ends, and takes no frame that an archive still needs. */
  lemma ReclaimGrows(w: World, k: nat)
    requires MayReclaim(w, k)
    ensures Storage(w.past.segs[..k]) <= w.mem.storage && Charges(w.past.segs[..k]) <= w.mem.charged
    ensures Grows(LogsOf(w), LogsOf(Reclaimed(w, k)))
  {
    hide Healthy, Live, Of, DurableSeq, Reclaimable, Storage, Charges, Numbers, FramesOf, MayReclaim, CursorAt;
    ReclaimReadyAll(w, k);
    var v := Reclaimed(w, k);
    forall d | d in w.past.accepted
      ensures d in w.disk.ledger.manifests && DurableOf(v, d) == DurableOf(w, d)
      ensures d in w.disk.ledger.archives ==>
        forall p | p in FramesOf(w, d) && p.frame.seqNo > w.disk.ledger.archives[d].released.seqNo ::
          p in FramesOf(v, d)
    {
      ReclaimDurableOf(w, k, d);
      if d in w.disk.ledger.archives {
        forall p | p in FramesOf(w, d) && p.frame.seqNo > w.disk.ledger.archives[d].released.seqNo
          ensures p in FramesOf(v, d)
        {
          ReclaimFrames(w, k, d, p);
        }
      }
    }
  }

  lemma ReclaimReadyAll(w: World, k: nat)
    requires MayReclaim(w, k)
    ensures k <= |w.past.segs| == |w.disk.files| == |w.mem.segments|
    ensures Storage(w.past.segs[..k]) <= w.mem.storage && Charges(w.past.segs[..k]) <= w.mem.charged
    ensures OnDisk(Reclaimed(w, k))
  {
    hide OnDisk, InMemory, Reclaimed, Storage, Charges, Reclaimable, MayReclaim;
    ReclaimSplit(w, k);
    ReclaimKeeps(w, k);
  }

  lemma SealDurable(t: seq<Placed>, d: Id, ledger: Ledger, accepted: map<Id, seq<Raw>>, safe: nat)
    requires Stored(t, d, ledger, accepted, safe) && d in accepted && SealableAt(t, safe)
    ensures DurableSeq(t, |accepted[d]|, safe) == |accepted[d]| == DurableSeq(t, |ledger.manifests[d]|, safe)
  {
    hide Thread, Carries, DurableSeq, Keep, SealableAt;
    var next := Publish(ledger, d, accepted[d]);
    StableEnd(t, accepted[d], |ledger.manifests[d]|, Keep(ledger, d), safe);
    PublishCarries(t, d, ledger, accepted[d], safe);
    StableEnd(t, accepted[d], |accepted[d]|, Keep(next, d), safe);
  }

  /** Publishing a manifest moves no record and no durable end. */
  lemma PublishSame(w: World, d: Id)
    requires MaySeal(w, d)
    ensures d in w.past.accepted && LogsOf(Published(w, d)) == LogsOf(w)
  {
    hide Layout, Active, Accounts, Members, Tails, Live, Of, Stored, DurableSeq, RegistryOk, AllRegistered, SealableAt;
    SealReady(w, d);
    var live := Live(w.past.segs);
    SealDurable(Of(live, d), d, w.disk.ledger, w.past.accepted, w.past.safe);
    forall e | e in w.past.accepted
      ensures e in w.disk.ledger.manifests && DurableOf(Published(w, d), e) == DurableOf(w, e)
    {
    }
  }

  lemma CheckpointSame(w: World, d: Id)
    requires d in w.mem.members
    ensures LogsOf(Checkpointed(w, d)) == LogsOf(w)
  {
    hide Live, Of, DurableSeq;
    SameLogs(w, Checkpointed(w, d));
  }

  /** Retiring a member leaves every other as it was. */
  lemma RetireOne(w: World, d: Id)
    requires d in w.mem.members
    ensures Retires(LogsOf(w), LogsOf(Retired(w, d)), d)
  {
    hide Live, Of, DurableSeq;
  }

  lemma RegisterGrows(w: World, d: Id, charge: nat, sealed: seq<Raw>)
    requires MayRegister(w, d, charge, sealed)
    ensures Grows(LogsOf(w), LogsOf(Registered(w, d, charge, sealed)))
  {
    hide Healthy, DurableOf, FramesOf;
    forall e | e in w.past.accepted
      ensures e in w.disk.ledger.manifests && e != d
      ensures var v := Registered(w, d, charge, sealed);
        DurableOf(v, e) == DurableOf(w, e) && FramesOf(v, e) == FramesOf(w, e)
    {
      RegisterSpares(w, d, charge, sealed, e);
    }
    RegisterUnprotected(w, d, charge, sealed);
  }

  lemma RegisterSpares(w: World, d: Id, charge: nat, sealed: seq<Raw>, e: Id)
    requires MayRegister(w, d, charge, sealed) && e in w.past.accepted
    ensures e in w.disk.ledger.manifests && e != d
    ensures var v := Registered(w, d, charge, sealed);
            DurableOf(v, e) == DurableOf(w, e) && FramesOf(v, e) == FramesOf(w, e)
  {
    hide Layout, Active, Accounts, Tails, Live, Of, Stored, Known, DurableSeq, RegistryOk, AllRegistered;
    assert d !in w.mem.members.Keys;
  }

  lemma RegisterUnprotected(w: World, d: Id, charge: nat, sealed: seq<Raw>)
    requires MayRegister(w, d, charge, sealed)
    ensures w.disk.ledger.archives == Registered(w, d, charge, sealed).disk.ledger.archives
    ensures w.disk.ledger.retirements == Registered(w, d, charge, sealed).disk.ledger.retirements
    ensures d !in w.past.accepted && d !in w.disk.ledger.archives
  {
    hide Layout, Active, Accounts, Tails, Live, Of, Stored, Known, DurableSeq, AllRegistered;
    assert d !in w.mem.members.Keys;
  }
}
