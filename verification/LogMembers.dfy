/** Registering and retiring members, and their archive authorities. */
module LogMembers {
  import opened Prelude
  import opened FrameFormat
  import opened LogLayout
  import opened LogState
  import opened LogWrites
  import Sequences

  lemma LayoutSame(owner: Owner, disk: Disk, past: History, ledger: Ledger, later: History)
    requires Layout(owner, disk, past) && later.segs == past.segs && later.safe == past.safe
    ensures Layout(owner, disk.(ledger := ledger), later)
  {
    hide SegsOk, FilesOk, BoundariesOk, StableOk;
  }

  lemma ActiveSame(options: Options, owner: Owner, mem: Memory, files: seq<File>, stable: nat, past: History,
                   after: Memory, later: History)
    requires Active(options, owner, mem, files, stable, past)
    requires later.segs == past.segs && later.safe == past.safe
    requires after.segment == mem.segment && after.offset == mem.offset && after.lsn == mem.lsn
    requires after.durable == mem.durable && after.buffer == mem.buffer
    ensures Active(options, owner, after, files, stable, later)
  {
    hide Content, Fenced, Length, Next;
  }

  // --------------------------------------------------------------- retirement

  function Retire(ledger: Ledger, d: Id, seqNo: nat): Ledger { ledger.(retirements := ledger.retirements[d := seqNo]) }

  function Retired(w: World, d: Id): World
    requires d in w.mem.members
  {
    w.(mem := w.mem.(members := w.mem.members[d := w.mem.members[d].(retired := true, archive := None)],
                     tails := w.mem.tails - {d}),
       disk := w.disk.(ledger := Retire(w.disk.ledger, d, w.mem.members[d].seqNo)),
       past := w.past.(accepted := w.past.accepted - {d}))
  }

  // What the disk holds once the retirement is published.
  function Discarded(w: World, d: Id): World
    requires d in w.mem.members
  {
    w.(disk := w.disk.(ledger := Retire(w.disk.ledger, d, w.mem.members[d].seqNo)),
       past := w.past.(accepted := w.past.accepted - {d}))
  }

  lemma RetireStored(t: seq<Placed>, d: Id, ledger: Ledger, accepted: map<Id, seq<Raw>>, safe: nat)
    requires Stored(t, d, ledger, accepted, safe) && d in accepted
    ensures Stored(t, d, Retire(ledger, d, |accepted[d]|), accepted - {d}, safe)
  {
    hide Thread, Carries, DurableSeq, Keep;
    CarriedNumbers(t, accepted[d], |ledger.manifests[d]|, Keep(ledger, d), safe);
  }

  lemma RetireOther(t: seq<Placed>, e: Id, ledger: Ledger, accepted: map<Id, seq<Raw>>, safe: nat, d: Id, seqNo: nat)
    requires Stored(t, e, ledger, accepted, safe) && e != d
    ensures Stored(t, e, Retire(ledger, d, seqNo), accepted - {d}, safe)
  {
    hide Thread, Carries, DurableSeq;
  }

  lemma RetireThreads(ledger: Ledger, live: seq<Placed>, accepted: map<Id, seq<Raw>>, safe: nat, d: Id)
    requires Threads(ledger, live, accepted, safe) && d in accepted && d in ledger.manifests
    ensures Threads(Retire(ledger, d, |accepted[d]|), live, accepted - {d}, safe)
  {
    hide Of, Stored;
    var next := Retire(ledger, d, |accepted[d]|);
    forall e | e in next.manifests ensures Stored(Of(live, e), e, next, accepted - {d}, safe) {
      if e == d {
        RetireStored(Of(live, d), d, ledger, accepted, safe);
      } else {
        RetireOther(Of(live, e), e, ledger, accepted, safe, d, |accepted[d]|);
      }
    }
  }

  lemma CarriedNumbers(t: seq<Placed>, accepted: seq<Raw>, checkpoint: nat, keep: nat, safe: nat)
    requires Carries(t, accepted, checkpoint, keep, safe)
    ensures forall p | p in t :: p.frame.seqNo <= |accepted|
  {
  }

  lemma RetireMembers(members: map<Id, Member>, live: seq<Placed>, ledger: Ledger, accepted: map<Id, seq<Raw>>,
                      durable: nat, here: Pointer, d: Id, seqNo: nat)
    requires Members(members, live, ledger, accepted, durable, here) && d in members
    ensures Members(members[d := members[d].(retired := true, archive := None)], live, Retire(ledger, d, seqNo),
                    accepted - {d}, durable, here)
  {
    hide Of, DurableSeq, Until, CursorAt;
    var after := members[d := members[d].(retired := true, archive := None)];
    var next := Retire(ledger, d, seqNo);
    forall e | e in after ensures Known(Of(live, e), e, after[e], next, accepted - {d}, durable, here) {
      assert e in members;
      assert Known(Of(live, e), e, members[e], ledger, accepted, durable, here);
    }
  }

  predicate MayRetire(w: World, d: Id) {
    Healthy(w) && d in w.mem.members && !w.mem.members[d].retired
  }

  lemma MemberReady(w: World, d: Id)
    requires MayRetire(w, d)
    ensures w.past.segs != [] && w.past.safe == w.mem.durable
    ensures d in w.past.accepted && d in w.disk.ledger.manifests && |w.past.accepted[d]| == w.mem.members[d].seqNo
    ensures Known(Of(Live(w.past.segs), d), d, w.mem.members[d], w.disk.ledger, w.past.accepted, w.mem.durable,
                  Here(Last(w.past.segs)))
    ensures Stored(Of(Live(w.past.segs), d), d, w.disk.ledger, w.past.accepted, w.mem.durable)
  {
    hide Layout, Accounts, Tails, Live, Of, Carries, Thread, DurableSeq, ArchiveAgrees, Here;
    assert d in w.mem.members.Keys;
  }

  lemma RetireOnDisk(w: World, d: Id)
    requires MayRetire(w, d)
    ensures OnDisk(Discarded(w, d))
  {
    hide Layout, Threads, Active, Accounts, Members, Tails, Live, Known, Stored;
    MemberReady(w, d);
    RetireThreads(w.disk.ledger, Live(w.past.segs), w.past.accepted, w.past.safe, d);
    LayoutSame(w.owner, w.disk, w.past, Discarded(w, d).disk.ledger, Discarded(w, d).past);
  }

  /** Retiring a member affects no other. */
  lemma RetireKeeps(w: World, d: Id)
    requires MayRetire(w, d)
    ensures Healthy(Retired(w, d))
  {
    hide Layout, Threads, Active, Accounts, Members, Live, Known, Stored, Here;
    RetireOnDisk(w, d);
    MemberReady(w, d);
    var v := Retired(w, d);
    ActiveSame(w.options, w.owner, w.mem, w.disk.files, w.disk.stable, w.past, v.mem, v.past);
    RetireMembers(w.mem.members, Live(w.past.segs), w.disk.ledger, w.past.accepted, w.mem.durable,
                  Here(Last(w.past.segs)), d, w.mem.members[d].seqNo);
    assert Tails(v.mem.tails, v.disk.ledger.manifests, v.past.accepted);
  }

  // ------------------------------------------------------------- registration

  function Enrol(ledger: Ledger, d: Id, charge: nat, sealed: seq<Raw>): Ledger {
    ledger.(registry := ledger.registry + [Registration(d, charge)], manifests := ledger.manifests[d := sealed])
  }

  function NewMember(sealed: seq<Raw>): Member {
    Member(false, |sealed|, NOWHERE, |sealed|, 0, |sealed|, NOWHERE, None)
  }

  function Registered(w: World, d: Id, charge: nat, sealed: seq<Raw>): World {
    w.(mem := w.mem.(members := w.mem.members[d := NewMember(sealed)], tails := w.mem.tails[d := []],
                     charged := w.mem.charged + charge),
       disk := w.disk.(ledger := Enrol(w.disk.ledger, d, charge, sealed)),
       past := w.past.(accepted := w.past.accepted[d := sealed]))
  }

  lemma EnrolRegistry(ledger: Ledger, d: Id, charge: nat, sealed: seq<Raw>)
    requires RegistryOk(ledger) && d !in ledger.manifests && |sealed| <= U64_MAX
    ensures RegistryOk(Enrol(ledger, d, charge, sealed))
  {
    var next := Enrol(ledger, d, charge, sealed);
    var n := |ledger.registry|;
    assert next.registry[n].id == d;
    forall e | e in next.manifests ensures exists i | 0 <= i <= n :: next.registry[i].id == e {
      if e != d {
        var i :| 0 <= i < n && ledger.registry[i].id == e;
        assert next.registry[i].id == e;
      }
    }
  }

  lemma {:induction false} Strangers(live: seq<Placed>, manifests: map<Id, seq<Raw>>, d: Id)
    requires AllRegistered(live, manifests) && d !in manifests
    ensures Of(live, d) == []
    decreases |live|
  {
    if live != [] {
      Sequences.Snoc(live);
      Strangers(live[..|live| - 1], manifests, d);
    }
  }

  lemma EnrolStored(d: Id, ledger: Ledger, charge: nat, sealed: seq<Raw>, accepted: map<Id, seq<Raw>>, safe: nat)
    requires RegistryOk(ledger) && d !in ledger.manifests
    ensures Stored([], d, Enrol(ledger, d, charge, sealed), accepted[d := sealed], safe)
  {
  }

  lemma EnrolThreads(ledger: Ledger, live: seq<Placed>, accepted: map<Id, seq<Raw>>, safe: nat, d: Id, charge: nat,
                     sealed: seq<Raw>)
    requires Threads(ledger, live, accepted, safe) && d !in ledger.manifests && |sealed| <= U64_MAX
    ensures Threads(Enrol(ledger, d, charge, sealed), live, accepted[d := sealed], safe)
  {
    hide Of, Stored, RegistryOk;
    EnrolRegistry(ledger, d, charge, sealed);
    EnrolStored(d, ledger, charge, sealed, accepted, safe);
    Strangers(live, ledger.manifests, d);
    var next := Enrol(ledger, d, charge, sealed);
    forall e | e in next.manifests ensures Stored(Of(live, e), e, next, accepted[d := sealed], safe) {
      if e != d { EnrolOther(Of(live, e), e, ledger, accepted, safe, d, charge, sealed); }
    }
  }

  lemma EnrolOther(t: seq<Placed>, e: Id, ledger: Ledger, accepted: map<Id, seq<Raw>>, safe: nat, d: Id, charge: nat,
                   sealed: seq<Raw>)
    requires Stored(t, e, ledger, accepted, safe) && e != d && d !in ledger.manifests
    ensures Stored(t, e, Enrol(ledger, d, charge, sealed), accepted[d := sealed], safe)
  {
    hide Thread, Carries, DurableSeq;
  }

  lemma EnrolKnown(d: Id, ledger: Ledger, charge: nat, sealed: seq<Raw>, accepted: map<Id, seq<Raw>>, durable: nat,
                   here: Pointer)
    requires RegistryOk(ledger) && d !in ledger.manifests && |sealed| <= U64_MAX
    ensures Known([], d, NewMember(sealed), Enrol(ledger, d, charge, sealed), accepted[d := sealed], durable, here)
  {
  }

  lemma EnrolMembers(members: map<Id, Member>, live: seq<Placed>, ledger: Ledger, accepted: map<Id, seq<Raw>>,
                     durable: nat, here: Pointer, d: Id, charge: nat, sealed: seq<Raw>)
    requires Members(members, live, ledger, accepted, durable, here) && d !in ledger.manifests && |sealed| <= U64_MAX
    requires RegistryOk(ledger) && Of(live, d) == []
    ensures Members(members[d := NewMember(sealed)], live, Enrol(ledger, d, charge, sealed), accepted[d := sealed],
                    durable, here)
  {
    hide Of, DurableSeq, Until, CursorAt, RegistryOk;
    EnrolKnown(d, ledger, charge, sealed, accepted, durable, here);
    var after := members[d := NewMember(sealed)];
    var next := Enrol(ledger, d, charge, sealed);
    forall e | e in after ensures Known(Of(live, e), e, after[e], next, accepted[d := sealed], durable, here) {
      if e != d { assert Known(Of(live, e), e, members[e], ledger, accepted, durable, here); }
    }
  }

  lemma EnrolAccounts(options: Options, storage: nat, charged: nat, segments: seq<Segment>, registry: seq<Registration>,
                      segs: seq<Seg>, protections: nat, r: Registration)
    requires Accounts(options, storage, charged, segments, registry, segs, protections)
    requires charged + r.charge <= options.indexBytes
    ensures Accounts(options, storage, charged + r.charge, segments, registry + [r], segs, protections)
  {
    hide SegmentsAgree, Storage, Charges;
    Sequences.Unsnoc(registry, r);
  }

  lemma RegisterTails(tails: map<Id, seq<Raw>>, manifests: map<Id, seq<Raw>>, accepted: map<Id, seq<Raw>>, d: Id,
                      sealed: seq<Raw>)
    requires Tails(tails, manifests, accepted) && d !in manifests
    ensures Tails(tails[d := []], manifests[d := sealed], accepted[d := sealed])
  {
    Sequences.Neutral(sealed);
  }

  predicate MayRegister(w: World, d: Id, charge: nat, sealed: seq<Raw>) {
    Healthy(w) && d !in w.mem.members && |sealed| <= U64_MAX && w.mem.charged + charge <= w.options.indexBytes
  }

  /** A new member, possibly imported with sealed records, starts with an empty thread. */
  lemma RegisterKeeps(w: World, d: Id, charge: nat, sealed: seq<Raw>)
    requires MayRegister(w, d, charge, sealed)
    ensures Healthy(Registered(w, d, charge, sealed))
  {
    hide Layout, Active, Accounts, Tails, Live, Known, Stored, Here, Of, AllRegistered, RegistryOk;
    assert d !in w.mem.members.Keys;
    ActiveBounds(w);
    var v := Registered(w, d, charge, sealed);
    Strangers(Live(w.past.segs), w.disk.ledger.manifests, d);
    LayoutSame(w.owner, w.disk, w.past, v.disk.ledger, v.past);
    ActiveSame(w.options, w.owner, w.mem, w.disk.files, w.disk.stable, w.past, v.mem, v.past);
    EnrolThreads(w.disk.ledger, Live(w.past.segs), w.past.accepted, w.past.safe, d, charge, sealed);
    EnrolMembers(w.mem.members, Live(w.past.segs), w.disk.ledger, w.past.accepted, w.mem.durable,
                 Here(Last(w.past.segs)), d, charge, sealed);
    EnrolAccounts(w.options, w.mem.storage, w.mem.charged, w.mem.segments, w.disk.ledger.registry, w.past.segs,
                  w.past.protections, Registration(d, charge));
    RegisterTails(w.mem.tails, w.disk.ledger.manifests, w.past.accepted, d, sealed);
  }
}
