/** Publications: sealing a member, retiring it, registering one, and its archive authority. */
module LogSeal {
  import opened Prelude
  import opened FrameFormat
  import opened LogLayout
  import opened LogState
  import opened ThreadLaws
  import opened LogWrites
  import Sequences

  // --------------------------------------------------------- durable position

  /** What a member reports as durable, although it is refreshed lazily. */
  function ReportedSeq(m: Member, durable: nat): nat { if m.lsn <= durable then m.seqNo else m.durableSeq }
  function ReportedPointer(m: Member, durable: nat): Pointer { if m.lsn <= durable then m.latest else m.durablePointer }

  /** The report is exact: the last sealed or stable sequence number, and where its frame lies. */
  lemma ReportExact(t: seq<Placed>, d: Id, m: Member, ledger: Ledger, accepted: map<Id, seq<Raw>>, durable: nat,
                    here: Pointer)
    requires Known(t, d, m, ledger, accepted, durable, here) && Stored(t, d, ledger, accepted, durable) && !m.retired
    ensures ReportedSeq(m, durable) == DurableSeq(t, |ledger.manifests[d]|, durable)
    ensures Until(t, durable) != [] ==> ReportedPointer(m, durable) == Last(Until(t, durable)).at
  {
    hide ArchiveAgrees, Thread;
    if m.lsn <= durable { UntilAll(t, durable); }
  }

  // ------------------------------------------------------------------ sealing

  function Publish(ledger: Ledger, d: Id, records: seq<Raw>): Ledger {
    ledger.(manifests := ledger.manifests[d := records])
  }

  // The manifest has been published; other members may act before the checkpoint follows.
  function Published(w: World, d: Id): World
    requires d in w.past.accepted
  {
    w.(mem := w.mem.(tails := w.mem.tails[d := []]),
       disk := w.disk.(ledger := Publish(w.disk.ledger, d, w.past.accepted[d])))
  }

  function AtEnd(m: Member): Member { m.(checkpoint := m.seqNo) }

  // The checkpoint has followed.
  function Checkpointed(w: World, d: Id): World
    requires d in w.mem.members
  {
    w.(mem := w.mem.(members := w.mem.members[d := AtEnd(w.mem.members[d])]))
  }

  predicate SealableAt(t: seq<Placed>, safe: nat) { forall p | p in t :: p.frame.lsn <= safe }

  lemma StableEnd(t: seq<Placed>, accepted: seq<Raw>, checkpoint: nat, keep: nat, safe: nat)
    requires Carries(t, accepted, checkpoint, keep, safe) && SealableAt(t, safe)
    ensures DurableSeq(t, checkpoint, safe) == |accepted|
  {
    if t != [] { assert Last(t) in t; }
    UntilAll(t, safe);
  }

  lemma PublishStored(t: seq<Placed>, d: Id, ledger: Ledger, accepted: map<Id, seq<Raw>>, safe: nat)
    requires Stored(t, d, ledger, accepted, safe) && d in accepted && SealableAt(t, safe)
    ensures Stored(t, d, Publish(ledger, d, accepted[d]), accepted, safe)
  {
    hide Thread, Carries, SealableAt, DurableSeq, Keep;
    var next := Publish(ledger, d, accepted[d]);
    StableEnd(t, accepted[d], |ledger.manifests[d]|, Keep(ledger, d), safe);
    PublishCarries(t, d, ledger, accepted[d], safe);
    StableEnd(t, accepted[d], |accepted[d]|, Keep(next, d), safe);
  }

  lemma PublishCarries(t: seq<Placed>, d: Id, ledger: Ledger, accepted: seq<Raw>, safe: nat)
    requires d in ledger.manifests && Carries(t, accepted, |ledger.manifests[d]|, Keep(ledger, d), safe)
    requires SealableAt(t, safe)
    ensures Carries(t, accepted, |accepted|, Keep(Publish(ledger, d, accepted), d), safe)
  {
    CarriesSealed(t, accepted, |ledger.manifests[d]|, Keep(ledger, d), safe, |accepted|,
                  Keep(Publish(ledger, d, accepted), d));
  }

  lemma PublishOther(t: seq<Placed>, e: Id, ledger: Ledger, accepted: map<Id, seq<Raw>>, safe: nat, d: Id,
                     records: seq<Raw>)
    requires Stored(t, e, ledger, accepted, safe) && e != d
    ensures Stored(t, e, Publish(ledger, d, records), accepted, safe)
  {
    hide Thread, Carries, DurableSeq;
  }

  lemma PublishRegistry(ledger: Ledger, d: Id, records: seq<Raw>)
    requires RegistryOk(ledger) && d in ledger.manifests && |records| <= U64_MAX
    ensures RegistryOk(Publish(ledger, d, records))
  {
  }

  /** A member whose last frame is stable is stable throughout. */
  lemma SealableThread(t: seq<Placed>, safe: nat)
    requires Thread(t) && (t != [] ==> Last(t).frame.lsn <= safe)
    ensures SealableAt(t, safe)
  {
    forall p | p in t ensures p.frame.lsn <= safe {
      var i :| 0 <= i < |t| && t[i] == p;
      ThreadNumbers(t, i, |t| - 1);
    }
  }

  lemma PublishThreads(ledger: Ledger, live: seq<Placed>, accepted: map<Id, seq<Raw>>, safe: nat, d: Id)
    requires Threads(ledger, live, accepted, safe) && d in accepted && SealableAt(Of(live, d), safe)
    requires |accepted[d]| <= U64_MAX
    ensures Threads(Publish(ledger, d, accepted[d]), live, accepted, safe)
  {
    hide Stored, Of, RegistryOk, SealableAt;
    PublishRegistry(ledger, d, accepted[d]);
    var next := Publish(ledger, d, accepted[d]);
    forall e | e in next.manifests ensures Stored(Of(live, e), e, next, accepted, safe) {
      if e == d {
        PublishStored(Of(live, d), d, ledger, accepted, safe);
      } else {
        PublishOther(Of(live, e), e, ledger, accepted, safe, d, accepted[d]);
      }
    }
  }

  lemma PublishKnown(t: seq<Placed>, d: Id, m: Member, ledger: Ledger, accepted: map<Id, seq<Raw>>, durable: nat,
                     here: Pointer)
    requires Known(t, d, m, ledger, accepted, durable, here) && !m.retired && SealableAt(t, durable)
    requires |ledger.manifests[d]| <= |accepted[d]|
    ensures Known(t, d, m, Publish(ledger, d, accepted[d]), accepted, durable, here)
  {
    hide DurableSeq, Until, CursorAt;
    if t != [] { assert Last(t) in t; }
  }

  lemma PublishKnownOther(
    t: seq<Placed>, e: Id, m: Member, ledger: Ledger, accepted: map<Id, seq<Raw>>, durable: nat, here: Pointer, d: Id,
    records: seq<Raw>)
    requires Known(t, e, m, ledger, accepted, durable, here) && e != d
    ensures Known(t, e, m, Publish(ledger, d, records), accepted, durable, here)
  {
    hide DurableSeq, Until, CursorAt;
  }

  lemma PublishMembers(
    members: map<Id, Member>, live: seq<Placed>, ledger: Ledger, accepted: map<Id, seq<Raw>>, durable: nat,
    here: Pointer, d: Id)
    requires Members(members, live, ledger, accepted, durable, here) && d in members && !members[d].retired
    requires d in accepted
    requires SealableAt(Of(live, d), durable) && d in ledger.manifests && |ledger.manifests[d]| <= |accepted[d]|
    ensures Members(members, live, Publish(ledger, d, accepted[d]), accepted, durable, here)
  {
    hide Known, Of, SealableAt;
    forall e | e in members
      ensures Known(Of(live, e), e, members[e], Publish(ledger, d, accepted[d]), accepted, durable, here)
    {
      if e == d {
        PublishKnown(Of(live, d), d, members[d], ledger, accepted, durable, here);
      } else {
        PublishKnownOther(Of(live, e), e, members[e], ledger, accepted, durable, here, d, accepted[d]);
      }
    }
  }

  lemma CheckpointKnown(t: seq<Placed>, d: Id, m: Member, ledger: Ledger, accepted: map<Id, seq<Raw>>, durable: nat,
                        here: Pointer)
    requires Known(t, d, m, ledger, accepted, durable, here)
    requires !m.retired ==> ledger.manifests[d] == accepted[d]
    ensures Known(t, d, AtEnd(m), ledger, accepted, durable, here)
  {
    hide DurableSeq, Until, CursorAt;
  }

  lemma CheckpointMembers(
    members: map<Id, Member>, live: seq<Placed>, ledger: Ledger, accepted: map<Id, seq<Raw>>, durable: nat,
    here: Pointer, d: Id)
    requires Members(members, live, ledger, accepted, durable, here) && d in members && d in accepted
    requires d in ledger.manifests
    requires ledger.manifests[d] == accepted[d]
    ensures Members(members[d := AtEnd(members[d])], live, ledger, accepted, durable, here)
  {
    hide Known, Of, AtEnd;
    var after := members[d := AtEnd(members[d])];
    assert after.Keys == members.Keys;
    forall e | e in after ensures Known(Of(live, e), e, after[e], ledger, accepted, durable, here) {
      if e == d { CheckpointKnown(Of(live, d), d, members[d], ledger, accepted, durable, here); }
    }
  }

  predicate MaySeal(w: World, d: Id) {
    && Healthy(w) && d in w.mem.members && !w.mem.members[d].retired && d in w.mem.tails
    && w.mem.members[d].lsn <= w.mem.durable
  }

  lemma SealReady(w: World, d: Id)
    requires MaySeal(w, d)
    ensures d in w.past.accepted && d in w.disk.ledger.manifests
    ensures w.disk.ledger.manifests[d] + w.mem.tails[d] == w.past.accepted[d]
    ensures w.past.segs != [] && w.past.safe == w.mem.durable && |w.past.accepted[d]| <= U64_MAX
    ensures SealableAt(Of(Live(w.past.segs), d), w.past.safe)
  {
    hide Layout, Accounts, Live, Of, Here, SealableAt, Carries, DurableSeq, ArchiveAgrees, Thread, Content, Fenced;
    assert d in w.mem.members.Keys;
    SealableThread(Of(Live(w.past.segs), d), w.past.safe);
  }

  /** A published manifest is safe even when its publisher dies right after. */
  lemma PublishOnDisk(w: World, d: Id)
    requires MaySeal(w, d)
    ensures d in w.past.accepted && OnDisk(w.(disk := w.disk.(ledger := Publish(w.disk.ledger, d, w.past.accepted[d]))))
  {
    hide SegsOk, FilesOk, BoundariesOk, StableOk, Threads, Active, Accounts, Members, Tails, Live, Of, SealableAt;
    SealReady(w, d);
    PublishThreads(w.disk.ledger, Live(w.past.segs), w.past.accepted, w.past.safe, d);
  }

  lemma SealTails(tails: map<Id, seq<Raw>>, manifests: map<Id, seq<Raw>>, accepted: map<Id, seq<Raw>>, d: Id)
    requires Tails(tails, manifests, accepted) && d in accepted
    ensures Tails(tails[d := []], manifests[d := accepted[d]], accepted)
  {
    Sequences.Neutral(accepted[d]);
  }

  /** Publishing keeps the invariant before any checkpoint follows, so other members may act in between. */
  lemma PublishKeeps(w: World, d: Id)
    requires MaySeal(w, d)
    ensures d in w.past.accepted && Healthy(Published(w, d))
  {
    hide SegsOk, FilesOk, BoundariesOk, StableOk, Threads, Active, Accounts, Members, Tails, Live, Here, Of, SealableAt;
    SealReady(w, d);
    var v := Published(w, d);
    HereActive(w, v);
    PublishOnDisk(w, d);
    PublishMembers(w.mem.members, Live(w.past.segs), w.disk.ledger, w.past.accepted, w.mem.durable,
                   Here(Last(w.past.segs)), d);
    SealTails(w.mem.tails, w.disk.ledger.manifests, w.past.accepted, d);
  }

  predicate MayCheckpoint(w: World, d: Id) {
    Healthy(w) && d in w.mem.members && d in w.mem.tails && w.mem.tails[d] == []
  }

  /** The checkpoint may follow once everything accepted is in the manifest. */
  lemma CheckpointKeeps(w: World, d: Id)
    requires MayCheckpoint(w, d)
    ensures Healthy(Checkpointed(w, d))
  {
    hide Layout, Threads, Active, Accounts, Members, Live, Here, AtEnd;
    var v := Checkpointed(w, d);
    HereActive(w, v);
    Sequences.Neutral(w.disk.ledger.manifests[d]);
    CheckpointMembers(w.mem.members, Live(w.past.segs), w.disk.ledger, w.past.accepted, w.mem.durable,
                      Here(Last(w.past.segs)), d);
  }

  // What the active segment needs does not read the members.
  lemma HereActive(w: World, v: World)
    requires Healthy(w) && v.past == w.past && v.options == w.options && v.owner == w.owner
    requires v.disk.files == w.disk.files && v.disk.stable == w.disk.stable
    requires v.mem == w.mem.(members := v.mem.members, tails := v.mem.tails)
    ensures w.past.segs != [] && Active(v.options, v.owner, v.mem, v.disk.files, v.disk.stable, v.past)
  {
    hide Layout, Threads, Accounts, Members, Tails, Content, Fenced, Length, Next;
  }

  // -------------------------------------------------------- noting durability

  function Noting(m: Member): Member { m.(durableSeq := m.seqNo, durablePointer := m.latest) }

  function DurableNoted(w: World, d: Id): World
    requires d in w.mem.members
  {
    w.(mem := w.mem.(members := w.mem.members[d := Noting(w.mem.members[d])]))
  }

  lemma NotingKnown(t: seq<Placed>, d: Id, m: Member, ledger: Ledger, accepted: map<Id, seq<Raw>>, durable: nat,
                    here: Pointer)
    requires Known(t, d, m, ledger, accepted, durable, here) && m.lsn <= durable
    ensures Known(t, d, Noting(m), ledger, accepted, durable, here)
  {
    hide DurableSeq, Until, CursorAt, Below;
  }

  lemma NotingMembers(
    members: map<Id, Member>, live: seq<Placed>, ledger: Ledger, accepted: map<Id, seq<Raw>>, durable: nat,
    here: Pointer, d: Id)
    requires Members(members, live, ledger, accepted, durable, here) && d in members && members[d].lsn <= durable
    ensures Members(members[d := Noting(members[d])], live, ledger, accepted, durable, here)
  {
    hide Known, Of, Noting;
    var after := members[d := Noting(members[d])];
    assert after.Keys == members.Keys;
    forall e | e in after ensures Known(Of(live, e), e, after[e], ledger, accepted, durable, here) {
      if e == d { NotingKnown(Of(live, d), d, members[d], ledger, accepted, durable, here); }
    }
  }

  /** Refreshing a member's durable end keeps the invariant. */
  lemma NotingKeeps(w: World, d: Id)
    requires Healthy(w) && d in w.mem.members && w.mem.members[d].lsn <= w.mem.durable
    ensures Healthy(DurableNoted(w, d))
  {
    hide Layout, Threads, Active, Accounts, Members, Tails, Live, Here, Noting;
    HereActive(w, DurableNoted(w, d));
    ActiveBounds(w);
    NotingMembers(w.mem.members, Live(w.past.segs), w.disk.ledger, w.past.accepted, w.mem.durable,
                  Here(Last(w.past.segs)), d);
  }
}
