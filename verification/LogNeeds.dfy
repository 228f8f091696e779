/** Which frames the log still needs, and that a reclaiming pass stops only for those. */
module LogNeeds {
  import opened Prelude
  import opened FrameFormat
  import opened LogLayout
  import opened LogState
  import opened LogWrites
  import opened LogReclaim
  import opened LogAccept
  import Sequences

  /** A frame of a member that was not retired, above its checkpoint or above the release of its archive. */
  predicate Needed(w: World, p: Placed) {
    var d := p.frame.id;
    && d !in w.disk.ledger.retirements && d in w.mem.members
    && (p.frame.seqNo > w.mem.members[d].checkpoint
        || (d in w.disk.ledger.archives && p.frame.seqNo > w.disk.ledger.archives[d].released.seqNo))
  }

  // The frames of one segment, where they lie.
  function FramesIn(s: Seg): seq<Placed> { Places(s.number, s.frames) }

  // One member's frames in a segment are a stretch of its thread.
  lemma SegmentThread(w: World, i: nat, d: Id)
    requires Healthy(w) && i < |w.past.segs| && d in w.disk.ledger.manifests
    ensures Thread(Of(FramesIn(w.past.segs[i]), d))
    ensures forall p | p in Of(FramesIn(w.past.segs[i]), d) ::
      p.frame.seqNo <= Last(Of(FramesIn(w.past.segs[i]), d)).frame.seqNo
    ensures d !in w.disk.ledger.retirements && Of(FramesIn(w.past.segs[i]), d) != [] ==>
      d in w.past.accepted && Last(Of(FramesIn(w.past.segs[i]), d)).frame.seqNo <= |w.past.accepted[d]|
  {
    hide InMemory, Layout, Thread, Live, Of, Places, DurableSeq, RegistryOk, AllRegistered;
    var segs := w.past.segs;
    var before, here, after := Live(segs[..i]), FramesIn(segs[i]), Live(segs[i + 1..]);
    LiveParts(segs, i);
    OfConcat(before + here, after, d);
    OfConcat(before, here, d);
    var t := Of(Live(segs), d);
    var n, m := |Of(before, d)|, |Of(here, d)|;
    assert Stored(t, d, w.disk.ledger, w.past.accepted, w.past.safe);
    assert t == Of(before, d) + Of(here, d) + Of(after, d);
    ThreadTake(t, n + m);
    assert t[..n + m] == Of(before, d) + Of(here, d);
    ThreadDrop(t[..n + m], n);
    assert t[..n + m][n..] == Of(here, d);
    LastIsGreatest(Of(here, d));
    if m > 0 { assert Last(Of(here, d)) == t[n + m - 1] && t[n + m - 1] in t; }
  }

  lemma LiveParts(segs: seq<Seg>, i: nat)
    requires i < |segs|
    ensures Live(segs) == Live(segs[..i]) + FramesIn(segs[i]) + Live(segs[i + 1..])
  {
    hide Live;
    Sequences.Around(segs, i);
    LiveConcat(segs[..i + 1], segs[i + 1..]);
    LiveSnoc(segs[..i], segs[i]);
  }

  lemma LastIsGreatest(t: seq<Placed>)
    requires Thread(t)
    ensures forall p | p in t :: p.frame.seqNo <= Last(t).frame.seqNo
  {
    forall p | p in t ensures p.frame.seqNo <= Last(t).frame.seqNo {
      var j :| 0 <= j < |t| && t[j] == p;
      ThreadNumbers(t, j, |t| - 1);
    }
  }

  // A member keeps a segment exactly when it still needs a frame of it.
  lemma MemberNeeds(w: World, i: nat, d: Id)
    requires Healthy(w) && i < |w.past.segs| == |w.mem.segments|
    ensures d in w.mem.segments[i].members <==> Of(FramesIn(w.past.segs[i]), d) != []
    ensures d in w.mem.segments[i].members ==> d in w.mem.members
    ensures d in w.mem.segments[i].members && d in w.mem.members ==>
      (!Releasable(w.mem.members[d], w.mem.segments[i].members[d]) <==>
       exists p :: p in FramesIn(w.past.segs[i]) && p.frame.id == d && Needed(w, p))
  {
    hide Layout, Active, Tails, Thread, Live, Of, Places, Summary, DurableSeq, Carries, Until, CursorAt, Below,
         Encodable, Stored, RegistryCharge, Storage, Charges, RegistryOk;
    var s := w.past.segs[i];
    assert w.mem.segments[i] == SegmentOf(s);
    SummaryIsThreadEnd(s.number, s.frames, d);
    var t := Of(FramesIn(s), d);
    if t != [] {
      assert Last(t) in t;
      OfMembers(FramesIn(s), d, Last(t));
      LiveParts(w.past.segs, i);
      assert Last(t) in Live(w.past.segs);
      assert d in w.mem.members.Keys;
      SegmentThread(w, i, d);
      assert Known(Of(Live(w.past.segs), d), d, w.mem.members[d], w.disk.ledger, w.past.accepted, w.mem.durable,
                   Here(Last(w.past.segs)));
      LastNeeds(w, d, Last(t).frame.seqNo);
      forall p ensures p in t <==> p in FramesIn(s) && p.frame.id == d { OfMembers(FramesIn(s), d, p); }
    }
  }

  lemma LastNeeds(w: World, d: Id, seqNo: nat)
    requires d in w.mem.members && d in w.disk.ledger.manifests
    requires (w.mem.members[d].retired <==> d in w.disk.ledger.retirements)
    requires !w.mem.members[d].retired ==>
      && seqNo <= U64_MAX && (w.mem.members[d].archive.Some? <==> d in w.disk.ledger.archives)
      && (w.mem.members[d].archive.Some? ==>
            w.mem.members[d].archive.value.released == w.disk.ledger.archives[d].released)
    ensures !Releasable(w.mem.members[d], seqNo) <==>
      d !in w.disk.ledger.retirements
      && (seqNo > w.mem.members[d].checkpoint
          || (d in w.disk.ledger.archives && seqNo > w.disk.ledger.archives[d].released.seqNo))
  {
  }

  /** A segment may go exactly when no frame of it is needed. */
  lemma ReclaimableIff(w: World, i: nat)
    requires Healthy(w) && i < |w.past.segs| == |w.mem.segments|
    ensures Reclaimable(w.mem.members, w.mem.segments[i]) <==> forall p | p in FramesIn(w.past.segs[i]) :: !Needed(w, p)
  {
    hide Healthy, Needed, Releasable, Places, Of;
    forall d
      ensures d in w.mem.segments[i].members <==> Of(FramesIn(w.past.segs[i]), d) != []
      ensures d in w.mem.segments[i].members ==> d in w.mem.members
      ensures d in w.mem.segments[i].members && d in w.mem.members ==>
        (!Releasable(w.mem.members[d], w.mem.segments[i].members[d]) <==>
         exists p :: p in FramesIn(w.past.segs[i]) && p.frame.id == d && Needed(w, p))
    {
      MemberNeeds(w, i, d);
    }
    forall p | p in FramesIn(w.past.segs[i]) ensures p.frame.id in w.mem.segments[i].members {
      OfMembers(FramesIn(w.past.segs[i]), p.frame.id, p);
    }
  }

  /** No segment could go: the oldest is the active one, or it holds a needed frame. */
  predicate Tight(w: World) {
    |w.past.segs| <= 1 || exists p :: p in FramesIn(w.past.segs[0]) && Needed(w, p)
  }

  /** What a pass leaves in front: the active segment, or one that holds a needed frame; and nothing needed went. */
  predicate Pruned(w: World, v: World) {
    && 0 < |v.past.segs| <= |w.past.segs| && v.past.segs == w.past.segs[|w.past.segs| - |v.past.segs|..]
    && Tight(v)
    && forall i | 0 <= i < |w.past.segs| - |v.past.segs| :: forall p | p in FramesIn(w.past.segs[i]) :: !Needed(w, p)
  }

  /** A member that needs a frame of the oldest segment, when that is not the active one. */
  predicate Blocks(w: World, d: Id) {
    |w.past.segs| > 1 && exists p :: p in FramesIn(w.past.segs[0]) && p.frame.id == d && Needed(w, p)
  }

  lemma SweptNeeds(w: World)
    requires Healthy(w)
    ensures Pruned(w, Swept(w))
  {
    hide Healthy, Needed, Places, Storage, Charges, Reclaimable, Numbers;
    var k := ReclaimCount(w.mem.members, w.mem.segments, w.mem.segment);
    SweptKeeps(w);
    SweptFields(w);
    SegmentNumbers(w);
    forall i | 0 <= i < k
      ensures forall p | p in FramesIn(w.past.segs[i]) :: !Needed(w, p)
    {
      ReclaimableIff(w, i);
    }
    ReclaimableIff(w, k);
    var v := Swept(w);
    forall p ensures Needed(v, p) <==> Needed(w, p) { SameNeeds(w, v, p); }
    assert v.past.segs[0] == w.past.segs[k];
  }

  /** The members reported as blockers of the oldest segment are those that need a frame of it. */
  lemma BlockersAre(w: World, d: Id)
    requires Healthy(w)
    ensures w.mem.segments != []
    ensures Blocks(w, d) <==>
      w.mem.segments[0].number != w.mem.segment && d in w.mem.segments[0].members
      && (d !in w.mem.members || !Releasable(w.mem.members[d], w.mem.segments[0].members[d]))
  {
    hide Healthy, Needed, Releasable, Places, Of;
    SegmentNumbers(w);
    MemberNeeds(w, 0, d);
    forall p | p in FramesIn(w.past.segs[0]) ensures p in Of(FramesIn(w.past.segs[0]), p.frame.id) {
      OfMembers(FramesIn(w.past.segs[0]), p.frame.id, p);
    }
  }

  lemma SameNeeds(w: World, v: World, p: Placed)
    requires v.mem.members == w.mem.members && v.disk.ledger == w.disk.ledger
    ensures Needed(v, p) <==> Needed(w, p)
  {
  }

  // Only the last segment is the active one.
  lemma SegmentNumbers(w: World)
    requires Healthy(w)
    ensures 0 < |w.past.segs| == |w.mem.segments|
    ensures forall i | 0 <= i < |w.mem.segments| ::
      w.mem.segments[i].number == w.mem.segment <==> i == |w.mem.segments| - 1
  {
    hide Threads, Members, Tails, FilesOk, BoundariesOk, StableOk, SegsOk, Content, Storage, Charges, RegistryCharge,
         Summary, Length;
    forall i | 0 <= i < |w.mem.segments|
      ensures w.mem.segments[i].number == w.mem.segment <==> i == |w.mem.segments| - 1
    {
      assert w.mem.segments[i] == SegmentOf(w.past.segs[i]);
      if i < |w.mem.segments| - 1 { FirstsIncrease(w.past.segs, i, |w.past.segs| - 1); }
    }
  }
}
