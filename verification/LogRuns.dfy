/**
 The promise of the log, free of segments and bytes: every member has a sequence of
 accepted records with a durable prefix.

 A step extends both; a crash cuts the records back, but never into the durable prefix.
 Over any run, what was durable once is held for ever after.
 */
module LogRuns {
  import opened FrameFormat
  import opened LogLayout
  import opened LogState
  import opened ThreadLaws
  import opened LogCrash

  /**
   The promise: what each member was accepted to hold and how much of it is durable, how
   far its archive is released, the durable frames in the log, and who was retired.
   */
  datatype Logs = Logs(
    accepted: map<Id, seq<Raw>>, durable: map<Id, nat>, released: map<Id, Cursor>, frames: map<Id, seq<Placed>>,
    retired: set<Id>)

  /** A cursor stays, or moves on along the chain of these records. */
  predicate Follows(a: Cursor, b: Cursor, accepted: seq<Raw>) {
    a == b || (a.seqNo <= b.seqNo <= |accepted| && b == CursorAt(a, accepted, b.seqNo))
  }

  /** A release only moves along its chain, and every durable frame above it stays where it lies. */
  predicate Retains(a: Logs, b: Logs, d: Id)
    requires d in b.accepted
  {
    d in a.released && d in a.frames && d in b.frames ==>
      && d in b.released && Follows(a.released[d], b.released[d], b.accepted[d])
      && forall p | p in a.frames[d] && p.frame.seqNo > b.released[d].seqNo :: p in b.frames[d]
  }

  /** Records and durable prefixes only grow; a member may be new, and none is lost but by being retired. */
  predicate Evolves(a: Logs, b: Logs) {
    && a.retired <= b.retired && a.accepted.Keys <= b.accepted.Keys + b.retired
    && forall d | d in a.accepted && d in b.accepted && d in a.durable && d in b.durable ::
         a.accepted[d] <= b.accepted[d] && a.durable[d] <= b.durable[d] && Retains(a, b, d)
  }

  /** No member is retired. */
  predicate Grows(a: Logs, b: Logs) { Evolves(a, b) && b.retired <= a.retired }

  /** No other member is retired. */
  predicate Retires(a: Logs, b: Logs, d: Id) { Evolves(a, b) && b.retired <= a.retired + {d} }

  /** A crash keeps a prefix that covers the durable one, and all that is left is durable. */
  predicate Cuts(a: Logs, b: Logs) {
    && b.accepted.Keys == a.accepted.Keys && b.retired == a.retired
    && forall d | d in a.accepted && d in a.durable && d in b.durable ::
         && b.accepted[d] <= a.accepted[d] && a.durable[d] <= |b.accepted[d]| && b.durable[d] == |b.accepted[d]|
         && Retains(a, b, d)
  }

  predicate Sound(a: Logs) {
    && a.durable.Keys == a.accepted.Keys && a.frames.Keys == a.accepted.Keys && a.accepted.Keys !! a.retired
    && (forall d | d in a.accepted :: a.durable[d] <= |a.accepted[d]|)
    && (forall d | d in a.accepted && d in a.released :: a.released[d].seqNo <= a.durable[d])
  }

  // One member's durable prefix, and what its archive still needs, survive from one state to another.
  predicate Survives(a: Logs, b: Logs, d: Id) {
    d in a.accepted && d in b.accepted && d in a.durable && d in b.durable && a.durable[d] <= |a.accepted[d]| ==>
      a.durable[d] <= b.durable[d] <= |b.accepted[d]| && a.accepted[d][..a.durable[d]] <= b.accepted[d]
        && Retains(a, b, d)
  }

  predicate Step(a: Logs, b: Logs) { Sound(a) && Sound(b) && (Evolves(a, b) || Cuts(a, b)) }

  predicate Run(states: seq<Logs>) {
    states != [] && forall i | 0 < i < |states| :: Step(states[i - 1], states[i])
  }

  lemma StepSurvives(a: Logs, b: Logs, d: Id)
    requires Step(a, b)
    ensures Survives(a, b, d)
  {
    hide Retains;
  }

  /** Chains compose, as long as the middle release is within what survives. */
  lemma FollowsTrans(a: Cursor, b: Cursor, c: Cursor, middle: seq<Raw>, late: seq<Raw>)
    requires Follows(a, b, middle) && Follows(b, c, late)
    requires b.seqNo <= |middle| && b.seqNo <= |late| && middle[..b.seqNo] == late[..b.seqNo]
    ensures Follows(a, c, late)
  {
    if a != b && b != c {
      CursorShift(a, late, b.seqNo, c.seqNo);
      hide RawBytes;
      assert middle[a.seqNo..b.seqNo] == middle[..b.seqNo][a.seqNo..] == late[a.seqNo..b.seqNo];
    } else if b == c && a != b {
      hide RawBytes;
      assert middle[a.seqNo..b.seqNo] == middle[..b.seqNo][a.seqNo..] == late[a.seqNo..b.seqNo];
    }
  }

  lemma RetainsTrans(a: Logs, b: Logs, c: Logs, d: Id)
    requires d in a.accepted && d in b.accepted && d in c.accepted && Sound(b) && Sound(c)
    requires Retains(a, b, d) && Survives(b, c, d)
    ensures Retains(a, c, d)
  {
    hide Follows;
    if d in a.released && d in a.frames && d in c.frames {
      var n := b.released[d].seqNo;
      var middle, late := b.accepted[d], c.accepted[d];
      assert middle[..n] == middle[..b.durable[d]][..n] == late[..n];
      FollowsTrans(a.released[d], b.released[d], c.released[d], middle, late);
      FollowsOn(b.released[d], c.released[d], late);
    }
  }

  lemma FollowsOn(a: Cursor, b: Cursor, accepted: seq<Raw>)
    requires Follows(a, b, accepted)
    ensures a.seqNo <= b.seqNo
  {
  }

  lemma SurvivesTrans(a: Logs, b: Logs, c: Logs, d: Id)
    requires d in a.accepted && d in b.accepted && d in c.accepted && Sound(a) && Sound(b) && Sound(c)
    requires Survives(a, b, d) && Survives(b, c, d)
    ensures Survives(a, c, d)
  {
    RetainsTrans(a, b, c, d);
    hide Retains;
  }

  // Over a step no member is lost but by being retired.
  lemma StepKeeps(a: Logs, b: Logs, d: Id)
    requires Step(a, b)
    ensures a.retired <= b.retired && (d in a.accepted && d !in b.retired ==> d in b.accepted)
  {
    hide Retains;
  }

  /**
   Crash safety of whole runs: a member that is not retired is never lost, whatever was durable
   for it at one moment is a prefix of what it holds, and durable, at every later moment, and no
   durable frame above its archive's release has moved or gone.
   */
  lemma {:induction false} DurableForEver(states: seq<Logs>, i: nat, j: nat, d: Id)
    requires Run(states) && i <= j < |states| && Sound(states[i])
    requires d in states[i].accepted && d !in states[j].retired
    ensures states[i].retired <= states[j].retired
    ensures d in states[j].accepted && Survives(states[i], states[j], d)
    decreases j
  {
    if i < j {
      hide Survives, Sound, Evolves, Cuts;
      assert Step(states[j - 1], states[j]);
      StepKeeps(states[j - 1], states[j], d);
      DurableForEver(states, i, j - 1, d);
      StepSurvives(states[j - 1], states[j], d);
      SurvivesTrans(states[i], states[j - 1], states[j], d);
    } else {
      SurvivesSelf(states[i], d);
    }
  }

  lemma SurvivesSelf(a: Logs, d: Id)
    ensures Survives(a, a, d)
  {
  }

  // ------------------------------------------------------------- the refinement

  // The durable frames of a member.
  function FramesOf(w: World, d: Id): seq<Placed> { Until(Of(Live(w.past.segs), d), w.past.safe) }

  lemma FramesAre(w: World, d: Id, p: Placed)
    requires OnDisk(w) && d in w.past.accepted
    ensures p in FramesOf(w, d) <==> p in Live(w.past.segs) && p.frame.id == d && p.frame.lsn <= w.past.safe
  {
    hide Layout, Of, Live, RegistryOk, AllRegistered, Thread, Carries, DurableSeq, Until;
    assert Stored(Of(Live(w.past.segs), d), d, w.disk.ledger, w.past.accepted, w.past.safe);
    UntilMembers(Of(Live(w.past.segs), d), w.past.safe, p);
    OfMembers(Live(w.past.segs), d, p);
  }

  /** What the log promises in a state. */
  function LogsOf(w: World): Logs {
    Logs(w.past.accepted, map d | d in w.past.accepted && d in w.disk.ledger.manifests :: DurableOf(w, d),
         map d | d in w.disk.ledger.archives :: w.disk.ledger.archives[d].released,
         map d | d in w.past.accepted && d in w.disk.ledger.manifests :: FramesOf(w, d),
         w.disk.ledger.retirements.Keys)
  }

  lemma LogsSound(w: World)
    requires OnDisk(w)
    ensures Sound(LogsOf(w))
  {
    hide Layout, DurableSeq, Of, Live, RegistryOk, AllRegistered, Thread, Carries, Until;
    forall d | d in w.past.accepted ensures d in w.disk.ledger.manifests && DurableOf(w, d) <= |w.past.accepted[d]| {
      assert Stored(Of(Live(w.past.segs), d), d, w.disk.ledger, w.past.accepted, w.past.safe);
      DurableBounds(Of(Live(w.past.segs), d), w.past.accepted[d], |w.disk.ledger.manifests[d]|, Keep(w.disk.ledger, d),
                    w.past.safe, w.past.safe);
    }
  }

  lemma EvolvesTrans(a: Logs, b: Logs, c: Logs)
    requires Evolves(a, b) && Evolves(b, c) && Sound(a) && Sound(b) && Sound(c)
    ensures Evolves(a, c)
  {
    hide Retains;
    forall d | d in a.accepted && d in c.accepted && d in a.durable && d in c.durable ensures Retains(a, c, d) {
      RetainsTrans(a, b, c, d);
    }
  }

  // States with the same threads, records, authorities and stable end promise the same.
  lemma SameLogs(w: World, v: World)
    requires Live(v.past.segs) == Live(w.past.segs) && v.past.accepted == w.past.accepted && v.past.safe == w.past.safe
    requires v.disk.ledger.manifests == w.disk.ledger.manifests && v.disk.ledger.archives == w.disk.ledger.archives
    requires v.disk.ledger.retirements == w.disk.ledger.retirements
    ensures LogsOf(v) == LogsOf(w)
  {
    hide DurableSeq, Of, Live, Until;
  }

  /** A later stable end only adds durable records. */
  lemma SyncGrows(w: World, v: World)
    requires OnDisk(w) && v.past.segs == w.past.segs && v.past.accepted == w.past.accepted && w.past.safe <= v.past.safe
    requires v.disk.ledger == w.disk.ledger
    ensures Grows(LogsOf(w), LogsOf(v))
  {
    hide OnDisk, DurableOf, FramesOf;
    forall d | d in w.past.accepted
      ensures d in w.disk.ledger.manifests && DurableOf(w, d) <= DurableOf(v, d)
      ensures forall p | p in FramesOf(w, d) :: p in FramesOf(v, d)
    {
      SyncAdds(w, v, d);
    }
  }

  lemma SyncAdds(w: World, v: World, d: Id)
    requires OnDisk(w) && v.past.segs == w.past.segs && v.past.accepted == w.past.accepted && w.past.safe <= v.past.safe
    requires v.disk.ledger == w.disk.ledger && d in w.past.accepted
    ensures d in w.disk.ledger.manifests && DurableOf(w, d) <= DurableOf(v, d)
    ensures forall p | p in FramesOf(w, d) :: p in FramesOf(v, d)
  {
    hide Layout, DurableSeq, Of, Live, RegistryOk, AllRegistered, Thread, Carries, Until;
    assert Stored(Of(Live(w.past.segs), d), d, w.disk.ledger, w.past.accepted, w.past.safe);
    DurableMonotone(Of(Live(w.past.segs), d), w.past.accepted[d], |w.disk.ledger.manifests[d]|,
                    Keep(w.disk.ledger, d), w.past.safe, w.past.safe, v.past.safe);
    forall p | p in FramesOf(w, d) ensures p in FramesOf(v, d) {
      UntilMembers(Of(Live(w.past.segs), d), w.past.safe, p);
      UntilMembers(Of(Live(w.past.segs), d), v.past.safe, p);
    }
  }

  // A crash loses no durable frame.
  lemma CrashFrames(w: World, n: nat, d: Id, p: Placed)
    requires OnDisk(w) && MayCut(w.owner, w.disk, w.past, n) && OnDisk(Crashed(w, n)) && d in w.past.accepted
    requires d in Crashed(w, n).past.accepted
    ensures p in FramesOf(w, d) ==> p in FramesOf(Crashed(w, n), d)
  {
    hide OnDisk, FramesOf, Layout, Live, CutSegs, CutFiles, Recovered, LastLsn;
    var v := Crashed(w, n);
    CrashOrder(w, n);
    var lost := CrashLive(w, n);
    FramesAre(w, d, p);
    FramesAre(v, d, p);
  }

  /** The crash of the concrete log is a crash of the promise. */
  lemma CrashCuts(w: World, n: nat)
    requires OnDisk(w) && MayCut(w.owner, w.disk, w.past, n)
    ensures Cuts(LogsOf(w), LogsOf(Crashed(w, n)))
  {
    hide Layout, DurableSeq, Of, Live, CutFiles, Threads, Recovered, LastLsn, Survivor, Content, Next, Until, FramesOf;
    CrashKeeps(w, n);
    var v := Crashed(w, n);
    RecoveredKeys(w.past.accepted, w.disk.ledger, Live(v.past.segs));
    forall d | d in w.past.accepted
      ensures DurableOf(v, d) == |v.past.accepted[d]|
      ensures forall p | p in FramesOf(w, d) :: p in FramesOf(v, d)
    {
      CrashAllDurable(v, d);
      forall p | p in FramesOf(w, d) ensures p in FramesOf(v, d) { CrashFrames(w, n, d, p); }
    }
  }

  lemma CrashAllDurable(v: World, d: Id)
    requires OnDisk(v) && d in v.past.accepted && v.past.segs != [] && v.past.safe + 1 == Next(Last(v.past.segs))
    ensures d in v.disk.ledger.manifests && DurableOf(v, d) == |v.past.accepted[d]|
  {
    hide FilesOk, BoundariesOk, StableOk, SegsOk, Of, Live, RegistryOk, AllRegistered, Thread, DurableSeq, Next, Before;
    LiveBefore(v.past.segs);
    ThreadBefore(Live(v.past.segs), d, Here(Last(v.past.segs)), v.past.safe + 1);
    assert Stored(Of(Live(v.past.segs), d), d, v.disk.ledger, v.past.accepted, v.past.safe);
    AllStable(Of(Live(v.past.segs), d), v.past.accepted[d], |v.disk.ledger.manifests[d]|, Keep(v.disk.ledger, d),
              v.past.safe, Here(Last(v.past.segs)));
  }

  lemma AllStable(t: seq<Placed>, accepted: seq<Raw>, checkpoint: nat, keep: nat, safe: nat, here: Pointer)
    requires Carries(t, accepted, checkpoint, keep, safe) && Before(t, here, safe + 1)
    ensures DurableSeq(t, checkpoint, safe) == |accepted|
  {
    if t != [] { assert Last(t) in t; }
    UntilAll(t, safe);
  }
}
