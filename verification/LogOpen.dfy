/** Opening a settled log: its members, its accounts and the segment that will be written. */
module LogOpen {
  import opened Prelude
  import opened FrameFormat
  import opened FrameRun
  import opened LogLayout
  import opened LogState
  import opened ThreadLaws
  import opened LogWrites
  import opened LogCrash
  import opened LogScan
  import opened LogScanLaws
  import opened LogScanExact
  import Sequences

  // ------------------------------------------------------------- the members

  /** What a read member agrees with: the records it carries, all of them stable. */
  lemma FinishedKnown(t: seq<Placed>, d: Id, ledger: Ledger, accepted: map<Id, seq<Raw>>, safe: nat, here: Pointer)
    requires Stored(t, d, ledger, accepted, safe) && Before(t, here, safe + 1) && Somewhere(t)
    requires d in ledger.manifests ==> |ledger.manifests[d]| <= U64_MAX
    ensures var r := Finished(Shown(Loaded(ledger, d), t));
            r.Ok? && Known(t, d, r.value, ledger, accepted, safe, here)
  {
    hide Shown, Thread, Carries, DurableSeq, Until, Below, RawBytes;
    var base := Loaded(ledger, d);
    if t != [] { assert Last(t) in t; }
    if d in ledger.retirements {
      ShownClosed(base, t, []);
    } else {
      CarriedEnd(t, accepted[d], |ledger.manifests[d]|, Keep(ledger, d), safe);
      StableDurable(t, accepted[d], |ledger.manifests[d]|, Keep(ledger, d), safe);
      ShownClosed(base, t, accepted[d]);
      if d in ledger.archives { FinishedArchive(t, d, ledger, accepted[d]); }
    }
  }

  lemma CarriedEnd(t: seq<Placed>, accepted: seq<Raw>, checkpoint: nat, keep: nat, safe: nat)
    requires Carries(t, accepted, checkpoint, keep, safe)
    ensures Matches(t, accepted) && keep <= checkpoint <= |accepted|
    ensures t == [] ==> |accepted| == checkpoint == keep
    ensures t != [] ==> t[0].frame.seqNo <= keep + 1 && Last(t).frame.seqNo == |accepted|
  {
  }

  lemma StableDurable(t: seq<Placed>, accepted: seq<Raw>, checkpoint: nat, keep: nat, safe: nat)
    requires Carries(t, accepted, checkpoint, keep, safe) && (t != [] ==> Last(t).frame.lsn <= safe)
    ensures DurableSeq(t, checkpoint, safe) == |accepted|
  {
    UntilAll(t, safe);
  }

  lemma FinishedArchive(t: seq<Placed>, d: Id, ledger: Ledger, accepted: seq<Raw>)
    requires d in ledger.archives && d in ledger.manifests
    requires ledger.archives[d].released.seqNo <= |accepted|
    requires t == [] ==> |accepted| == |ledger.manifests[d]| == Keep(ledger, d)
    requires t != [] ==> Last(t).frame.seqNo == |accepted|
    ensures ShownCursor(ledger.archives[d].released, t, accepted) == CursorAt(ledger.archives[d].released, accepted,
                                                                              |accepted|)
  {
    if ledger.archives[d].released.seqNo == |accepted| { CursorSelf(ledger.archives[d].released, accepted); }
  }

  // The members a finished scan keeps.
  predicate AllFinished(shown: map<Id, Member>, members: map<Id, Member>) {
    members.Keys == shown.Keys && forall d | d in shown :: Finished(shown[d]) == Ok(members[d])
  }

  lemma FinishedMembers(ledger: Ledger, live: seq<Placed>, accepted: map<Id, seq<Raw>>, safe: nat, here: Pointer,
                        members: map<Id, Member>)
    requires Threads(ledger, live, accepted, safe) && Before(live, here, safe + 1) && Somewhere(live)
    requires AllFinished(ShownAll(ledger, live), members)
    ensures Members(members, live, ledger, accepted, safe, here)
  {
    hide Stored, Known, Finished, Shown, Of, Loaded, Before, Somewhere;
    forall d | d in members ensures Known(Of(live, d), d, members[d], ledger, accepted, safe, here) {
      assert d in ShownAll(ledger, live).Keys;
      ThreadSomewhere(live, d);
      ThreadBefore(live, d, here, safe + 1);
      FinishedKnown(Of(live, d), d, ledger, accepted, safe, here);
    }
  }

  lemma ThreadSomewhere(live: seq<Placed>, d: Id)
    requires Somewhere(live)
    ensures Somewhere(Of(live, d))
  {
    hide Of;
    forall p | p in Of(live, d)
      ensures p.at != NOWHERE && Encodable(p.at) && p.frame.seqNo <= U64_MAX
    {
      OfMembers(live, d, p);
    }
  }

  /** Every member of a carried log can be finished. */
  lemma CanFinish(ledger: Ledger, live: seq<Placed>, accepted: map<Id, seq<Raw>>, safe: nat, here: Pointer, d: Id)
    requires Threads(ledger, live, accepted, safe) && Before(live, here, safe + 1) && Somewhere(live)
    requires d in ledger.manifests
    ensures Finished(ShownAll(ledger, live)[d]).Ok?
  {
    hide Known, Finished, Shown, Of, Loaded, Before, Somewhere, Stored;
    ThreadSomewhere(live, d);
    ThreadBefore(live, d, here, safe + 1);
    FinishedKnown(Of(live, d), d, ledger, accepted, safe, here);
  }

  // ------------------------------------------------------------ the accounts

  function BaseCharge(ledger: Ledger, registry: seq<Registration>): nat {
    if registry == [] then 0 else BaseCharge(ledger, registry[..|registry| - 1]) + LoadCharge(ledger, Last(registry))
  }

  /** Loading charges what was registered, and 488 more for each member that is still protected. */
  lemma {:induction false} BaseIs(ledger: Ledger, registry: seq<Registration>)
    ensures BaseCharge(ledger, registry) == RegistryCharge(registry) + 488 * |StillProtected(ledger, registry)|
  {
    if registry != [] {
      var n := |registry| - 1;
      BaseIs(ledger, registry[..n]);
      var before, now := StillProtected(ledger, registry[..n]), StillProtected(ledger, registry);
      assert now == before + if n in now then {n} else {};
    }
  }

  function StillProtected(ledger: Ledger, registry: seq<Registration>): set<nat> {
    set i: nat | i < |registry| && registry[i].id !in ledger.retirements && registry[i].id in ledger.archives
  }

  // The archive part of the charges of loading.
  lemma {:induction false} BaseCoversRegistry(ledger: Ledger, registry: seq<Registration>)
    ensures RegistryCharge(registry) <= BaseCharge(ledger, registry)
  {
    if registry != [] { BaseCoversRegistry(ledger, registry[..|registry| - 1]); }
  }

  lemma SummariesAgree(segs: seq<Seg>)
    ensures SegmentsAgree(Summaries(segs), segs)
  {
  }

  // ------------------------------------------------------------- the boundary

  /** Publishing the boundary of a torn last file fences it and changes nothing else. */
  lemma FenceLayout(owner: Owner, disk: Disk, past: History)
    requires Layout(owner, disk, past) && past.segs != [] && Fenced(Last(past.segs))
    ensures var last := Last(past.segs);
      Layout(owner, disk.(boundaries := disk.boundaries[last.number := BoundaryOf(owner, last)]), past)
  {
    hide SegsOk, FilesOk, StableOk;
    FenceBoundaries(owner, disk.boundaries, past.segs);
  }

  lemma FenceBoundaries(owner: Owner, boundaries: map<nat, Boundary>, segs: seq<Seg>)
    requires BoundariesOk(owner, boundaries, segs) && SegsOk(segs) && segs != [] && Fenced(Last(segs))
    ensures BoundariesOk(owner, boundaries[Last(segs).number := BoundaryOf(owner, Last(segs))], segs)
  {
    hide SegOk, Fenced, BoundaryOf;
    var m := |segs| - 1;
    NumbersConsecutive(segs, m);
    forall i | 0 <= i <= m ensures segs[i].number == segs[m].number ==> i == m { NumbersConsecutive(segs, i); }
  }

  // -------------------------------------------------------------- the memory

  /** What recovery puts into memory for a settled log whose last segment may be written. */
  predicate OpenedMemory(w: World, base: nat) {
    && w.past.segs != []
    && w.mem.segment == Last(w.past.segs).number && w.mem.offset == Length(Last(w.past.segs))
    && w.mem.lsn == w.past.safe == w.mem.durable && w.mem.buffer == []
    && w.mem.storage == Storage(w.past.segs) && w.mem.charged == base + Charges(w.past.segs)
    && w.mem.segments == Summaries(w.past.segs) && w.mem.tails == map[]
    && AllFinished(ShownAll(w.disk.ledger, Live(w.past.segs)), w.mem.members)
  }

  predicate MayOpen(w: World, base: nat) {
    && OnDisk(w) && w.options.Valid() && OpenedMemory(w, base) && Settled(w.owner, w.disk, w.past)
    && !Fenced(Last(w.past.segs))
    && base == RegistryCharge(w.disk.ledger.registry) + w.past.protections
    && Affordable(w.options, base, w.past.segs)
  }

  lemma OpenActive(w: World, base: nat)
    requires MayOpen(w, base)
    ensures Active(w.options, w.owner, w.mem, w.disk.files, w.disk.stable, w.past)
    ensures Before(Live(w.past.segs), Here(Last(w.past.segs)), w.past.safe + 1)
  {
    hide Live, Content, Size, BoundariesOk, FilesOk, Threads, Storage, Charges, AllFinished, SegOk, Before, LegalFrames,
         ShownAll, Summaries;
    LiveBefore(w.past.segs);
    Sequences.Neutral(Last(w.disk.files).bytes);
  }

  /** Opening establishes the whole invariant. */
  lemma OpenKeeps(w: World, base: nat)
    requires MayOpen(w, base)
    ensures Healthy(w)
  {
    hide Live, Content, Size, BoundariesOk, FilesOk, StableOk, Threads, Storage, Charges, RegistryCharge, AllFinished,
         Before, Active, Members, ShownAll, Summaries, Fenced;
    OpenActive(w, base);
    LiveSomewhere(w.past.segs);
    SummariesAgree(w.past.segs);
    FinishedMembers(w.disk.ledger, Live(w.past.segs), w.past.accepted, w.past.safe, Here(Last(w.past.segs)),
                    w.mem.members);
  }
}
