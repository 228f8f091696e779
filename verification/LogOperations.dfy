/**
 The operations of the shared log and its members, and any one of them as a step: what it
 leaves when it takes place, and why it may not.
 */
module LogOperations {
  import opened Prelude
  import opened FrameFormat
  import opened LogState
  import opened LogLayout
  import opened LogCrash
  import opened LogScan
  import opened LogScanLaws
  import opened LogOpen
  import opened LogRuns
  import opened LogAccept
  import opened LogBatch
  import opened LogQuota
  import opened LogNeeds
  import opened LogWrites
  import opened LogMembers
  import opened LogArchive
  import opened LogSeal
  import opened LogExport
  import opened SharedWals
  import opened SharedMembers
  import opened LogReader

  datatype Operation =
    | Append(id: Id, raw: Raw)
    | Batch(id: Id, raws: seq<Raw>)
    | Sync(id: Id)
    | Publish(id: Id)
    | Checkpoint(id: Id)
    | Seal(id: Id)
    | Recover(id: Id)
    | Register(id: Id, charge: U64, sealed: seq<Raw>)
    | Close(id: Id)
    | Discard(id: Id)
    | Protect(id: Id, maxBytes: nat)
    | Release(id: Id, through: Cursor)
    | Export(maxBytes: nat)
    | Reboot(n: nat, vanish: bool)

  // Whom an operation may retire.
  function Dismissed(op: Operation): set<Id> { if op.Discard? then {op.id} else {} }

  /** A step that retires no one but these. */
  predicate StepBut(a: Logs, b: Logs, gone: set<Id>) { Step(a, b) && b.retired <= a.retired + gone }

  lemma GrowsStep(w: World, v: World)
    requires OnDisk(w) && OnDisk(v) && Grows(LogsOf(w), LogsOf(v))
    ensures StepBut(LogsOf(w), LogsOf(v), {})
  {
    hide OnDisk, LogsOf, Evolves;
    LogsSound(w);
    LogsSound(v);
  }

  lemma RetiresStep(w: World, v: World, id: Id)
    requires OnDisk(w) && OnDisk(v) && Retires(LogsOf(w), LogsOf(v), id)
    ensures StepBut(LogsOf(w), LogsOf(v), {id})
  {
    hide OnDisk, LogsOf, Evolves;
    LogsSound(w);
    LogsSound(v);
  }

  lemma CutsStep(w: World, v: World)
    requires OnDisk(w) && OnDisk(v) && Cuts(LogsOf(w), LogsOf(v))
    ensures StepBut(LogsOf(w), LogsOf(v), {})
  {
    hide OnDisk, LogsOf;
    LogsSound(w);
    LogsSound(v);
  }

  // ------------------------------------------------------------- outcomes

  // Records in a row, the first of them with a number.
  predicate InSequence(raws: seq<Raw>) {
    raws != [] && InspectRecord(raws[0]).Ok? && 0 < InspectRecord(raws[0]).value
    && forall i | 0 <= i < |raws| :: InspectRecord(raws[i]) == Ok(InspectRecord(raws[0]).value + i)
  }

  // An open database of this log.
  predicate Open(w: World, id: Id) { Current(w.mem.members, id) && id in w.mem.tails }

  predicate Sealed(w: World, id: Id) {
    id in w.past.accepted && id in w.disk.ledger.manifests && w.disk.ledger.manifests[id] == w.past.accepted[id]
  }

  /** What an operation leaves behind when it takes place. */
  ghost predicate Done(op: Operation, w: World, v: World) {
    match op
    case Append(id, raw) =>
      id in w.past.accepted && v.past.accepted == w.past.accepted[id := w.past.accepted[id] + [raw]]
    case Batch(id, raws) =>
      id in w.past.accepted && v.past.accepted == w.past.accepted[id := w.past.accepted[id] + raws]
    case Sync(id) =>
      && v.past.accepted == w.past.accepted && id in v.past.accepted && id in v.disk.ledger.manifests
      && DurableOf(v, id) == |v.past.accepted[id]|
    case Publish(id) => v.past.accepted == w.past.accepted && Sealed(v, id)
    case Checkpoint(id) =>
      && v.past.accepted == w.past.accepted && v.disk.ledger == w.disk.ledger
      && id in v.mem.members && v.mem.members[id].checkpoint == v.mem.members[id].seqNo && Tight(v)
    case Seal(id) =>
      && v.past.accepted == w.past.accepted && Sealed(v, id) && id in v.mem.tails && v.mem.tails[id] == []
      && (id in w.mem.tails && w.mem.tails[id] != [] ==>
            id in v.mem.members && v.mem.members[id].checkpoint == v.mem.members[id].seqNo && Tight(v))
    case Recover(id) =>
      && v.past.accepted == w.past.accepted && id in v.past.accepted && id in v.disk.ledger.manifests
      && id in v.mem.tails && v.disk.ledger.manifests[id] + v.mem.tails[id] == v.past.accepted[id]
    case Register(id, charge, sealed) =>
      && Current(v.mem.members, id)
      && (id !in w.mem.members ==>
            && id in v.past.accepted && v.past.accepted[id] == sealed && Open(v, id)
            && v.mem.members[id].checkpoint == |sealed|)
      && (id in w.mem.members ==> v == w)
    case Close(id) => v.mem.tails == w.mem.tails - {id} && v.past.accepted == w.past.accepted
    case Discard(id) => !Current(v.mem.members, id) && (Current(w.mem.members, id) ==> Tight(v))
    case Protect(id, maxBytes) =>
      && v.past.accepted == w.past.accepted && id in v.mem.members && v.mem.members[id].archive.Some?
      && v.mem.members[id].archive.value.maxBytes == maxBytes
      && (id in w.mem.members ==>
            match w.mem.members[id].archive
            case Some(p) => v.mem.members[id].archive == Some(p.(maxBytes := maxBytes))
            case None => id in v.past.accepted && v.mem.members[id].archive.value.released ==
                                                  Cursor(|v.past.accepted[id]|, 32))
    case Release(id, through) =>
      && v.past.accepted == w.past.accepted && id in v.mem.members && v.mem.members[id].archive.Some?
      && v.mem.members[id].archive.value.released == through
      && (v.disk.ledger != w.disk.ledger ==> Tight(v))
    case Export(_) => v == w
    case Reboot(_, _) => v.mem.tails == map[] && forall d | d in v.mem.members :: Reloaded(v, d)
  }

  // A member whose database is closed and whose checkpoint is what its files say.
  predicate Reloaded(v: World, d: Id)
    requires d in v.mem.members
  {
    v.mem.members[d].checkpoint ==
    if d in v.disk.ledger.retirements then v.disk.ledger.retirements[d]
    else if d in v.disk.ledger.manifests then |v.disk.ledger.manifests[d]| else 0
  }

  /** What an operation can have changed, whether it took place or not. */
  ghost predicate Framed(op: Operation, w: World, v: World) {
    var a, b := w.disk.ledger, v.disk.ledger;
    && (op.Export? ==> v == w) && (op.Reboot? ==> b == a)
    && (!op.Export? && !op.Reboot? ==> OthersKept(w, v, op.id))
    && (op.Export? || op.Reboot? || op.Register? || op.Recover? || op.Close? || StaysOpen(w, v, op.id))
    && (!op.Export? && !op.Reboot? && !op.Protect? ==> v.past.protections == w.past.protections)
    && match op
       case Publish(id) => Lingers(w, v, id) && Reseals(a, b, id, w.past.accepted)
       case Seal(id) => Reseals(a, b, id, w.past.accepted)
       case Register(id, charge, sealed) => Enrols(a, b, id, charge, sealed)
       case Discard(id) => Dismisses(a, b, id, w.past.accepted)
       case Protect(id, maxBytes) => Lingers(w, v, id) && Requotas(a, b, id, maxBytes, w.past.accepted)
       case Release(id, through) => Lingers(w, v, id) && Rereleases(a, b, id, through)
       case Checkpoint(id) => b == a
       case Append(id, _) => Lingers(w, v, id) && b == a
       case Batch(id, _) => Lingers(w, v, id) && b == a
       case Sync(id) => Lingers(w, v, id) && b == a
       case Recover(id) => Lingers(w, v, id) && b == a
       case Close(id) => Lingers(w, v, id) && b == a
       case Export(_) => true
       case Reboot(_, _) => true
  }

  /** Only releasing a member's archive moves its release, and only enabling one begins it. */
  lemma OnlyReleaseMoves(op: Operation, w: World, v: World, d: Id)
    requires Framed(op, w, v)
    ensures d in w.disk.ledger.archives && !(op.Release? && op.id == d) ==>
      d in v.disk.ledger.archives && v.disk.ledger.archives[d].released == w.disk.ledger.archives[d].released
    ensures op.Release? && op.id == d && d in w.disk.ledger.archives ==>
      d in v.disk.ledger.archives
      && v.disk.ledger.archives[d].released in {w.disk.ledger.archives[d].released, op.through}
      && v.disk.ledger.archives[d].maxBytes == w.disk.ledger.archives[d].maxBytes
    ensures d !in w.disk.ledger.archives && d in v.disk.ledger.archives ==> op.Protect? && op.id == d
  {
    if !op.Export? && !op.Reboot? && op.id != d { KeptAt(w.disk.ledger.archives, v.disk.ledger.archives, op.id, d); }
  }

  lemma KeptAt<T, U>(a: map<T, U>, b: map<T, U>, except: T, d: T)
    requires b - {except} == a - {except} && d != except
    ensures d in a <==> d in b
    ensures d in a ==> a[d] == b[d]
  {
    assert d in a <==> d in a - {except};
    assert d in b <==> d in b - {except};
  }

  // Loading, replaying and finishing a member leave its checkpoint alone.
  lemma {:induction false} ShownCheckpoint(base: Member, t: seq<Placed>)
    ensures Shown(base, t).checkpoint == base.checkpoint
    decreases |t|
  {
    if t != [] { ShownCheckpoint(base, t[..|t| - 1]); }
  }

  lemma OpenedReloaded(v: World)
    requires AllFinished(ShownAll(v.disk.ledger, Live(v.past.segs)), v.mem.members)
    ensures forall d | d in v.mem.members :: Reloaded(v, d)
  {
    hide Live, Of, Shown;
    var shown := ShownAll(v.disk.ledger, Live(v.past.segs));
    forall d | d in v.mem.members ensures Reloaded(v, d) {
      assert d in shown.Keys;
      ShownCheckpoint(Loaded(v.disk.ledger, d), Of(Live(v.past.segs), d));
    }
  }

  /** Why an operation may not take place in an open log without a fault. */
  ghost predicate Refused(op: Operation, w: World) {
    match op
    case Append(id, raw) =>
      (id in w.mem.members && w.mem.members[id].retired) || InspectRecord(raw).Err? || InspectRecord(raw).value == 0
      || !Accepts(w, id, InspectRecord(raw).value, raw)
    case Batch(id, raws) =>
      (id in w.mem.members && w.mem.members[id].retired) || !InSequence(raws)
      || !BatchFits(w, id, InspectRecord(raws[0]).value, raws)
    case Sync(id) => !Current(w.mem.members, id)
    case Publish(id) => !(Open(w, id) && w.mem.members[id].lsn <= w.mem.durable)
    case Checkpoint(id) => !(Open(w, id) && w.mem.tails[id] == [])
    case Seal(id) => !Open(w, id)
    case Recover(id) => !Current(w.mem.members, id) || CheckpointLags(w, id)
    case Register(id, charge, sealed) =>
      |sealed| > U64_MAX
      || (if id in w.mem.members then w.mem.members[id].retired else w.mem.charged + charge > w.options.indexBytes)
    case Close(_) => false
    case Discard(id) => id in w.mem.tails
    case Protect(id, maxBytes) =>
      (id in w.mem.members && w.mem.members[id].retired) || !Protectable(w, id, maxBytes)
    case Release(id, through) => (id in w.mem.members && w.mem.members[id].retired) || !RecordBoundary(w, id, through)
    case Export(_) => false
    case Reboot(n, vanish) => w.disk.files != [] && !MayLose(w.disk, n, vanish)
  }

  /** An operation took place, or there was a reason why not. */
  ghost predicate Outcome(op: Operation, w: World, v: World, poison: bool, done: bool) {
    if done then Done(op, w, v) else poison || Refused(op, w)
  }

  // ----------------------------------------------------------------- quotas

  /** A new quota holds what is there, and a new protection begins with nothing to hold. */
  lemma RequotaKeeps(w: World, v: World, id: Id, maxBytes: nat)
    requires v.disk.ledger == w.disk.ledger || (MayRetire(w, id) && Protectable(w, id, maxBytes))
    requires Requotas(w.disk.ledger, v.disk.ledger, id, maxBytes, w.past.accepted)
    requires v.past.accepted == w.past.accepted
    ensures KeepsQuotas(w, v)
  {
    hide MayRetire, PinnedBytes, RawBytes;
    if Quotas(w) && v.disk.ledger != w.disk.ledger {
      ProtectedHere(w, id);
      if w.mem.members[id].archive.Some? { PinnedIs(w, id); }
      forall d | d in v.disk.ledger.archives && d in v.past.accepted
        ensures InQuota(v.disk.ledger.archives[d], v.past.accepted[d])
      {
        if d != id { assert InQuota(w.disk.ledger.archives[d], w.past.accepted[d]); }
        var rest := w.past.accepted[d][|w.past.accepted[d]|..];
        assert rest == [];
        NoRawBytes();
      }
    }
  }

  lemma NoRawBytes()
    ensures RawBytes([]) == 0
  {
  }

  lemma ReleaseOnward(w: World, v: World, id: Id)
    requires OnDisk(w) && OnDisk(v) && Grows(LogsOf(w), LogsOf(v)) && v.past.accepted == w.past.accepted
    requires id in w.past.accepted && id in w.disk.ledger.archives
    ensures id in v.disk.ledger.archives
    ensures w.disk.ledger.archives[id].released.seqNo <= v.disk.ledger.archives[id].released.seqNo
    ensures w.disk.ledger.archives[id].released.seqNo <= |w.past.accepted[id]| ==>
      v.disk.ledger.archives[id].released.seqNo <= |w.past.accepted[id]|
  {
    hide OnDisk, DurableOf, FramesOf, CursorAt;
    OnDiskKeys(w);
    OnDiskKeys(v);
    assert id in LogsOf(w).accepted && id in LogsOf(w).durable && id in LogsOf(v).durable;
    assert Retains(LogsOf(w), LogsOf(v), id);
  }

  lemma ReleaseKeeps(w: World, v: World, id: Id, through: Cursor)
    requires OnDisk(w) && OnDisk(v) && Grows(LogsOf(w), LogsOf(v)) && v.past.accepted == w.past.accepted
    requires Rereleases(w.disk.ledger, v.disk.ledger, id, through)
    ensures KeepsQuotas(w, v)
  {
    hide OnDisk, InQuota, LogsOf, Grows;
    if Quotas(w) && v.disk.ledger != w.disk.ledger {
      if id in w.past.accepted { ReleaseOnward(w, v, id); }
      forall d | d in w.past.accepted && d in w.disk.ledger.archives
        ensures w.disk.ledger.archives[d].released.seqNo <= |w.past.accepted[d]|
      {
        QuotaBounds(w, d);
      }
      QuotasShrink(w, v);
    }
  }

  lemma QuotaBounds(w: World, d: Id)
    requires Quotas(w) && d in w.past.accepted && d in w.disk.ledger.archives
    ensures w.disk.ledger.archives[d].released.seqNo <= |w.past.accepted[d]|
  {
    assert InQuota(w.disk.ledger.archives[d], w.past.accepted[d]);
  }

  lemma OnDiskKeys(w: World)
    requires OnDisk(w)
    ensures w.past.accepted.Keys <= w.disk.ledger.manifests.Keys
    ensures w.disk.ledger.archives.Keys <= w.disk.ledger.manifests.Keys
    ensures forall d | d in w.disk.ledger.manifests :: d in w.past.accepted <==> d !in w.disk.ledger.retirements
  {
    hide Layout, Live, Of, AllRegistered, Thread, Carries, DurableSeq, CursorFits;
    forall d | d in w.disk.ledger.manifests
      ensures d in w.past.accepted <==> d !in w.disk.ledger.retirements
    {
      assert Stored(Of(Live(w.past.segs), d), d, w.disk.ledger, w.past.accepted, w.past.safe);
    }
  }

  lemma EnrolKeeps(w: World, v: World, id: Id, charge: nat, sealed: seq<Raw>)
    requires OnDisk(w) && OnDisk(v) && Enrols(w.disk.ledger, v.disk.ledger, id, charge, sealed)
    requires forall d | d in w.past.accepted :: d in v.past.accepted && v.past.accepted[d] == w.past.accepted[d]
    ensures KeepsQuotas(w, v)
  {
    hide OnDisk, InQuota;
    OnDiskKeys(w);
    OnDiskKeys(v);
    forall d | d in v.past.accepted && d in v.disk.ledger.archives ensures d in w.past.accepted {}
  }

  /** A crash only cuts records, and no release above them. */
  lemma CutKeeps(w: World, v: World)
    requires OnDisk(v) && v.disk.ledger == w.disk.ledger && Cuts(LogsOf(w), LogsOf(v)) && OnDisk(w)
    ensures KeepsQuotas(w, v)
  {
    hide OnDisk, InQuota, DurableOf, FramesOf, Retains;
    LogsSound(v);
    OnDiskKeys(w);
    OnDiskKeys(v);
    forall d | d in v.past.accepted
      ensures d in w.past.accepted && v.past.accepted[d] <= w.past.accepted[d]
      ensures d in w.disk.ledger.archives ==> w.disk.ledger.archives[d].released.seqNo <= |v.past.accepted[d]|
    {
      assert d in LogsOf(w).accepted && d in LogsOf(w).durable && d in LogsOf(v).durable;
    }
    QuotasShrink(w, v);
  }

  // ------------------------------------------------------------- operations

  /** One append; one that its callers could not ask for is refused. */
  method Extend(wal: SharedWal, op: Operation) returns (done: bool)
    requires wal.Valid() && (op.Append? || op.Batch?)
    modifies wal
    ensures wal.Valid() && (old(wal.poison) ==> wal.poison)
    ensures Outcome(op, old(wal.Now()), wal.Now(), wal.poison, done)
    ensures Framed(op, old(wal.Now()), wal.Now()) && KeepsQuotas(old(wal.Now()), wal.Now())
    ensures Grows(old(LogsOf(wal.Now())), LogsOf(wal.Now()))
  {
    hide OnDisk, InMemory, LogsOf, Grows, InspectRecord, Accepts, BatchFits, Appended, Quotas, MayRetire, Swept;
    ghost var w := wal.Now();
    GrowsSelf(LogsOf(w));
    done := false;
    match op {
      case Append(id, raw) =>
        var seqNo := InspectRecord(raw);
        if seqNo.Ok? && 0 < seqNo.value && (id in wal.members ==> !wal.members[id].retired) {
          var r, faulted := wal.AppendRaw(id, seqNo.value, raw);
          done := r.Ok?;
          if done { AppendKeeps(w, wal.Now(), id, seqNo.value, raw); } else { QuotasSame(w, wal.Now()); }
        }
      case Batch(id, raws) =>
        if InSequence(raws) && (id in wal.members ==> !wal.members[id].retired) {
          ghost var open := !wal.poison;
          var r, faulted := wal.AppendBatchRaw(id, InspectRecord(raws[0]).value, raws);
          done := r.Ok?;
          if open { BatchKeeps(w, wal.Now(), id, InspectRecord(raws[0]).value, raws, done, wal.poison); }
        }
    }
  }

  lemma AppendKeeps(w: World, v: World, id: Id, seqNo: nat, raw: Raw)
    requires Healthy(w) && Accepts(w, id, seqNo, raw) && v.disk.ledger == w.disk.ledger && id in w.past.accepted
    requires id in w.mem.members ==> !w.mem.members[id].retired
    requires v.past.accepted == w.past.accepted[id := w.past.accepted[id] + [raw]]
    ensures KeepsQuotas(w, v)
  {
    hide OnDisk, InMemory, Healthy, KeepsQuotas, QuotaAllows, Trimmed;
    AppendQuota(w, v, id, seqNo, raw);
  }

  lemma BatchKeeps(w: World, v: World, id: Id, first: nat, raws: seq<Raw>, done: bool, poison: bool)
    requires Healthy(w) && v.disk.ledger == w.disk.ledger && (id in w.mem.members ==> !w.mem.members[id].retired)
    requires done ==>
      BatchFits(w, id, first, raws) && id in w.past.accepted
      && v.past.accepted == w.past.accepted[id := w.past.accepted[id] + raws]
    requires !done && !poison ==> v == w || v == Swept(w)
    requires !done && poison ==>
      && BatchFits(w, id, first, raws)
      && exists k: nat :: k < |raws| && Took(w.past.accepted, v.past.accepted, id, raws, k)
    ensures KeepsQuotas(w, v)
  {
    hide OnDisk, InMemory, Healthy, KeepsQuotas, Swept, PinnedBytes, Trimmed;
    if done {
      assert raws[..|raws|] == raws;
      BatchQuota(w, v, id, first, raws, |raws|);
    } else if poison {
      var k: nat :| k < |raws| && Took(w.past.accepted, v.past.accepted, id, raws, k);
      BatchQuota(w, v, id, first, raws, k);
    } else {
      SweptFieldsOf(w);
      QuotasSame(w, v);
    }
  }

  /** One operation that adds no record; one that its callers could not ask for is refused. */
  method Consult(wal: SharedWal, op: Operation) returns (done: bool)
    requires wal.Valid() && (op.Sync? || op.Recover?)
    modifies wal
    ensures wal.Valid() && (old(wal.poison) ==> wal.poison)
    ensures Outcome(op, old(wal.Now()), wal.Now(), wal.poison, done)
    ensures Framed(op, old(wal.Now()), wal.Now()) && KeepsQuotas(old(wal.Now()), wal.Now())
    ensures Grows(old(LogsOf(wal.Now())), LogsOf(wal.Now()))
  {
    hide OnDisk, InMemory, LogsOf, Grows, CheckpointLags, DurableOf, Quotas;
    ghost var w := wal.Now();
    GrowsSelf(LogsOf(w));
    done := false;
    match op {
      case Sync(id) =>
        if id in wal.members ==> !wal.members[id].retired {
          var r := wal.MemberSync(id);
          done := r.Ok?;
        }
      case Recover(id) =>
        if id in wal.members ==> !wal.members[id].retired {
          var r := wal.Recover(id);
          done := r.Ok?;
        }
    }
    QuotasSame(w, wal.Now());
  }

  /** One operation on a member's manifest; it needs an open database. */
  method Maintain(wal: SharedWal, op: Operation) returns (done: bool)
    requires wal.Valid() && (op.Publish? || op.Checkpoint? || op.Seal?)
    modifies wal
    ensures wal.Valid() && (old(wal.poison) ==> wal.poison)
    ensures Outcome(op, old(wal.Now()), wal.Now(), wal.poison, done)
    ensures Framed(op, old(wal.Now()), wal.Now()) && KeepsQuotas(old(wal.Now()), wal.Now())
    ensures Grows(old(LogsOf(wal.Now())), LogsOf(wal.Now()))
  {
    hide OnDisk, InMemory, LogsOf, Grows, MaySeal, Tight;
    GrowsSelf(LogsOf(wal.Now()));
    HealthyIs(wal.Now());
    done := false;
    match op {
      case Publish(id) =>
        if !wal.poison && Current(wal.members, id) && id in wal.tails && wal.members[id].lsn <= wal.durable {
          MaySealNow(wal.Now(), id);
          var r := wal.PublishManifest(id);
          HealthyIs(wal.Now());
          done := r.Ok?;
        }
      case Checkpoint(id) =>
        if !wal.poison && Current(wal.members, id) && id in wal.tails && wal.tails[id] == [] {
          var r := wal.Checkpoint(id);
          done := r.Ok?;
        }
      case Seal(id) =>
        if !wal.poison && Current(wal.members, id) && id in wal.tails {
          var r := wal.Seal(id);
          done := r.Ok?;
        }
    }
  }

  // Only an open log changes a member's quota.
  lemma ProtectedNow(w: World, id: Id, maxBytes: nat, open: bool)
    requires Protectable(w, id, maxBytes) && open && (open ==> Healthy(w))
    requires id in w.mem.members ==> !w.mem.members[id].retired
    ensures MayRetire(w, id)
  {
    hide OnDisk, InMemory;
  }

  lemma SameLogs(w: World, v: World)
    requires LogsOf(v) == LogsOf(w) && v.disk.ledger == w.disk.ledger
    ensures KeepsQuotas(w, v)
  {
    hide DurableOf, FramesOf, InQuota;
  }

  lemma KeepsTrans(w: World, v: World, x: World)
    requires KeepsQuotas(w, v) && KeepsQuotas(v, x)
    ensures KeepsQuotas(w, x)
  {
    hide Quotas;
  }

  /** One operation on who is registered, open and protected. */
  method Enlist(wal: SharedWal, op: Operation) returns (done: bool)
    requires wal.Valid() && (op.Register? || op.Close? || op.Protect?)
    modifies wal
    ensures wal.Valid() && (old(wal.poison) ==> wal.poison)
    ensures Outcome(op, old(wal.Now()), wal.Now(), wal.poison, done)
    ensures Framed(op, old(wal.Now()), wal.Now()) && KeepsQuotas(old(wal.Now()), wal.Now())
    ensures Grows(old(LogsOf(wal.Now())), LogsOf(wal.Now()))
  {
    hide OnDisk, InMemory, LogsOf, Grows, Protectable, KeepsQuotas, MayRetire;
    ghost var w := wal.Now();
    GrowsSelf(LogsOf(w));
    QuotasSame(w, w);
    done := false;
    match op {
      case Register(id, charge, sealed) =>
        if |sealed| <= U64_MAX {
          var r := wal.Register(id, charge, sealed);
          done := r.Ok?;
          EnrolKeeps(w, wal.Now(), id, charge, sealed);
        }
      case Close(id) =>
        wal.Close(id);
        done := true;
        QuotasSame(w, wal.Now());
      case Protect(id, maxBytes) =>
        if id in wal.members ==> !wal.members[id].retired {
          ghost var open := !wal.poison;
          var r := wal.EnableArchive(id, maxBytes);
          done := r.Ok?;
          if wal.disk.ledger != w.disk.ledger { ProtectedNow(w, id, maxBytes, open); }
          RequotaKeeps(w, wal.Now(), id, maxBytes);
        }
    }
  }

  /** Retires a member whose database is closed; no other is retired. */
  method Dismiss(wal: SharedWal, id: Id) returns (done: bool)
    requires wal.Valid()
    modifies wal
    ensures wal.Valid() && (old(wal.poison) ==> wal.poison)
    ensures Outcome(Discard(id), old(wal.Now()), wal.Now(), wal.poison, done)
    ensures Framed(Discard(id), old(wal.Now()), wal.Now()) && KeepsQuotas(old(wal.Now()), wal.Now())
    ensures Retires(old(LogsOf(wal.Now())), LogsOf(wal.Now()), id)
  {
    hide OnDisk, InMemory, LogsOf, Grows, Retires, Tight;
    GrowsSelf(LogsOf(wal.Now()));
    GrowsRetires(LogsOf(wal.Now()), LogsOf(wal.Now()), id);
    if id in wal.tails { return false; }
    var r := wal.Discard(id);
    done := r.Ok?;
  }

  // A release by a reader that remembers nothing.
  method ReleaseAnew(wal: SharedWal, id: Id, through: Cursor) returns (done: bool)
    requires wal.Valid()
    modifies wal
    ensures wal.Valid() && (old(wal.poison) ==> wal.poison)
    ensures Outcome(Release(id, through), old(wal.Now()), wal.Now(), wal.poison, done)
    ensures Framed(Release(id, through), old(wal.Now()), wal.Now()) && KeepsQuotas(old(wal.Now()), wal.Now())
    ensures Grows(old(LogsOf(wal.Now())), LogsOf(wal.Now()))
  {
    hide OnDisk, InMemory, LogsOf, Grows, IndexOk, RecordBoundary, KeepsQuotas, Tight;
    ghost var w := wal.Now();
    GrowsSelf(LogsOf(w));
    QuotasSame(w, w);
    if id in wal.members && wal.members[id].retired { return false; }
    var handle := new SharedMember(wal, id);
    var r := handle.ReleaseArchive(through);
    done := r.Ok?;
    ReleaseKeeps(w, wal.Now(), id, through);
  }

  /** The machine stops, losing what the device chooses, and the log is opened again. */
  method Restart(wal: SharedWal, n: nat, vanish: bool) returns (done: bool)
    requires wal.Valid() && wal.options.Valid()
    modifies wal
    ensures wal.Valid()
    ensures Outcome(Reboot(n, vanish), old(wal.Now()), wal.Now(), wal.poison, done)
    ensures Framed(Reboot(n, vanish), old(wal.Now()), wal.Now()) && KeepsQuotas(old(wal.Now()), wal.Now())
    ensures done ==> !wal.poison
    ensures StepBut(old(LogsOf(wal.Now())), LogsOf(wal.Now()), {})
  {
    hide OnDisk, InMemory, LogsOf, Grows, Cuts, Settled, StepBut, KeepsQuotas;
    ghost var w := wal.Now();
    QuotasSame(w, w);
    if wal.disk.files != [] && !MayLose(wal.disk, n, vanish) {
      // Not a choice the device has.
      GrowsSelf(LogsOf(w));
      GrowsStep(w, w);
      return false;
    }
    wal.Crash(n, vanish);
    CutsStep(w, wal.Now());
    CutKeeps(w, wal.Now());
    ghost var crashed := wal.Now();
    var r, faulted := wal.Open();
    done := r.Ok?;
    SameLogs(crashed, wal.Now());
    KeepsTrans(w, crashed, wal.Now());
    if done { OpenedReloaded(wal.Now()); }
  }

  /**
   Any one operation: it takes place, or the log is poisoned, or there was a reason to refuse it.
   In any case it is a step of the promise, in which only a discarded member is retired, and only
   a restart opens a poisoned log again.
   */
  method Do(wal: SharedWal, op: Operation) returns (done: bool)
    requires wal.Valid() && wal.options.Valid()
    modifies wal
    ensures wal.Valid() && (old(wal.poison) && !op.Reboot? ==> wal.poison)
    ensures Outcome(op, old(wal.Now()), wal.Now(), wal.poison, done)
    ensures Framed(op, old(wal.Now()), wal.Now()) && KeepsQuotas(old(wal.Now()), wal.Now())
    ensures StepBut(old(LogsOf(wal.Now())), LogsOf(wal.Now()), Dismissed(op))
  {
    hide OnDisk, InMemory, LogsOf, Grows, Cuts, StepBut, Retires, Done, Refused, Framed;
    ghost var w := wal.Now();
    match op {
      case Reboot(n, vanish) =>
        done := Restart(wal, n, vanish);
        return;
      case Discard(id) =>
        done := Dismiss(wal, id);
        RetiresStep(w, wal.Now(), id);
        return;
      case Release(id, through) => done := ReleaseAnew(wal, id, through);
      case Append(_, _) => done := Extend(wal, op);
      case Batch(_, _) => done := Extend(wal, op);
      case Sync(_) => done := Consult(wal, op);
      case Recover(_) => done := Consult(wal, op);
      case Publish(_) => done := Maintain(wal, op);
      case Checkpoint(_) => done := Maintain(wal, op);
      case Seal(_) => done := Maintain(wal, op);
      case Register(_, _, _) => done := Enlist(wal, op);
      case Close(_) => done := Enlist(wal, op);
      case Protect(_, _) => done := Enlist(wal, op);
      case Export(maxBytes) =>
        // Exporting is up to a reader; it leaves the log alone.
        GrowsSelf(LogsOf(w));
        ExportDone(maxBytes, w);
        done := true;
    }
    GrowsStep(w, wal.Now());
  }

  lemma ExportDone(maxBytes: nat, w: World)
    ensures Done(Export(maxBytes), w, w) && Framed(Export(maxBytes), w, w)
  {
  }
}
