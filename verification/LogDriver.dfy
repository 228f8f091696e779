/**
 Whole runs of the shared log: any sequence of its operations, by any members, with
 crashes at any byte in between, and a reader that exports one member's history meanwhile.
 */
module LogDriver {
  import opened Prelude
  import opened FrameFormat
  import opened LogState
  import opened LogCrash
  import opened LogRuns
  import opened LogMembers
  import opened LogExport
  import opened SharedWals
  import opened SharedMembers
  import opened LogReader
  import opened LogQuota
  import opened LogNeeds
  import opened LogOperations
  import Sequences

  // The states of a run, in which only discarded members are retired.
  ghost predicate RunOf(states: seq<Logs>, ops: seq<Operation>) {
    && Run(states) && |states| == |ops| + 1
    && forall i | 0 <= i < |ops| :: states[i + 1].retired <= states[i].retired + Dismissed(ops[i])
  }

  // The log between two operations.
  datatype Moment = Moment(world: World, poison: bool)

  /**
   An operation took place, or the log is poisoned, or it was refused; it touched nothing but what
   it is about, and only a restart opens a poisoned log again.
   */
  ghost predicate Happens(op: Operation, a: Moment, b: Moment) {
    && (a.poison && !op.Reboot? ==> b.poison) && Framed(op, a.world, b.world) && KeepsQuotas(a.world, b.world)
    && (Done(op, a.world, b.world) || b.poison || Refused(op, a.world))
  }

  /** What happened in a run, and the promise at every moment of it. */
  ghost predicate History(trace: seq<Moment>, states: seq<Logs>, ops: seq<Operation>) {
    && |trace| == |states| == |ops| + 1
    && (forall i | 0 <= i < |trace| :: states[i] == LogsOf(trace[i].world))
    && forall i | 0 <= i < |ops| :: Happens(ops[i], trace[i], trace[i + 1])
  }

  lemma HistoryOne(m: Moment)
    ensures History([m], [LogsOf(m.world)], [])
  {
    hide LogsOf;
  }

  lemma HistoryOn(trace: seq<Moment>, states: seq<Logs>, ops: seq<Operation>, next: Moment, op: Operation)
    requires History(trace, states, ops) && Happens(op, Last(trace), next)
    ensures History(trace + [next], states + [LogsOf(next.world)], ops + [op]) && Last(trace + [next]) == next
  {
    hide LogsOf, Happens;
    var all, done := trace + [next], ops + [op];
    forall i | 0 <= i < |done| ensures Happens(done[i], all[i], all[i + 1]) {
      if i < |ops| { assert all[i + 1] == trace[i + 1] && all[i] == trace[i] && done[i] == ops[i]; }
    }
  }

  lemma OutcomeHappens(op: Operation, a: Moment, b: Moment, done: bool)
    requires Outcome(op, a.world, b.world, b.poison, done) && (a.poison && !op.Reboot? ==> b.poison)
    requires Framed(op, a.world, b.world) && KeepsQuotas(a.world, b.world)
    ensures Happens(op, a, b)
  {
    hide Done, Refused, Framed, Quotas;
  }

  /** Quotas that hold at the beginning hold at every moment of the run. */
  lemma {:induction false} QuotasEver(trace: seq<Moment>, states: seq<Logs>, ops: seq<Operation>, i: nat)
    requires History(trace, states, ops) && Quotas(trace[0].world) && i < |trace|
    ensures Quotas(trace[i].world)
    decreases i
  {
    hide Quotas, LogsOf, Done, Refused, Framed, Outcome;
    if i > 0 {
      QuotasEver(trace, states, ops, i - 1);
      assert Happens(ops[i - 1], trace[i - 1], trace[i]);
    }
  }

  // The operations leave a member alone.
  predicate Spares(ops: seq<Operation>, id: Id) { forall op | op in ops :: op != Discard(id) }

  /**
   Any run from any state. A member that is not retired is never lost: what was durable for it
   at some moment is a durable prefix of what it holds at the end, across all crashes in between,
   and no durable frame above its archive's release has moved or gone. A member that no operation
   discards is not retired.
   */
  method Drive(wal: SharedWal, ops: seq<Operation>) returns (ghost states: seq<Logs>, ghost trace: seq<Moment>)
    requires wal.Valid() && wal.options.Valid()
    modifies wal
    ensures wal.Valid()
    ensures History(trace, states, ops)
    ensures trace[0] == old(Moment(wal.Now(), wal.poison)) && Last(trace) == Moment(wal.Now(), wal.poison)
    ensures RunOf(states, ops) && states[0] == old(LogsOf(wal.Now())) && Last(states) == LogsOf(wal.Now())
    ensures forall i: nat, d | i <= |ops| && d in states[i].accepted && d !in Last(states).retired ::
      d in Last(states).accepted && Survives(states[i], Last(states), d)
    ensures forall i: nat, d | i <= |ops| && d in states[i].accepted && Spares(ops[i..], d) ::
      d !in Last(states).retired
    ensures Quotas(old(wal.Now())) ==> forall m | m in trace :: Quotas(m.world)
  {
    hide OnDisk, InMemory, LogsOf, StepBut, Survives, RunOf, Spares, History, Happens, Outcome, Framed, KeepsQuotas,
         Quotas;
    states, trace := [LogsOf(wal.Now())], [Moment(wal.Now(), wal.poison)];
    LogsSound(wal.Now());
    RunOne(states[0]);
    HistoryOne(trace[0]);
    for i := 0 to |ops|
      invariant wal.Valid()
      invariant |states| == i + 1 && states[0] == old(LogsOf(wal.Now())) && Last(states) == LogsOf(wal.Now())
      invariant RunOf(states, ops[..i])
      invariant History(trace, states, ops[..i]) && |trace| == i + 1
      invariant trace[0] == old(Moment(wal.Now(), wal.poison)) && Last(trace) == Moment(wal.Now(), wal.poison)
    {
      var done := Do(wal, ops[i]);
      ghost var next := Moment(wal.Now(), wal.poison);
      OutcomeHappens(ops[i], Last(trace), next, done);
      RunOfOn(states, ops[..i], LogsOf(wal.Now()), ops[i]);
      HistoryOn(trace, states, ops[..i], next, ops[i]);
      Sequences.Around(ops, i);
      states, trace := states + [LogsOf(wal.Now())], trace + [next];
    }
    Sequences.Neutral(ops);
    LogsSound(wal.Now());
    RunSurvives(states, ops);
    AllWithinQuota(trace, states, ops);
  }

  lemma AllWithinQuota(trace: seq<Moment>, states: seq<Logs>, ops: seq<Operation>)
    requires History(trace, states, ops)
    ensures Quotas(trace[0].world) ==> forall m | m in trace :: Quotas(m.world)
  {
    hide Quotas, LogsOf, Happens;
    if Quotas(trace[0].world) {
      forall m | m in trace ensures Quotas(m.world) {
        var i :| 0 <= i < |trace| && trace[i] == m;
        QuotasEver(trace, states, ops, i);
      }
    }
  }

  lemma RunOfOn(states: seq<Logs>, ops: seq<Operation>, next: Logs, op: Operation)
    requires RunOf(states, ops) && StepBut(Last(states), next, Dismissed(op))
    ensures RunOf(states + [next], ops + [op]) && Last(states + [next]) == next
  {
    hide Step;
    var all, done := states + [next], ops + [op];
    forall i | 0 <= i < |done| ensures all[i + 1].retired <= all[i].retired + Dismissed(done[i]) {
      if i < |ops| { assert all[i + 1] == states[i + 1] && all[i] == states[i] && done[i] == ops[i]; }
    }
  }

  lemma RunSurvives(states: seq<Logs>, ops: seq<Operation>)
    requires RunOf(states, ops) && Sound(Last(states))
    ensures forall i: nat, d | i <= |ops| && d in states[i].accepted && d !in Last(states).retired ::
      d in Last(states).accepted && Survives(states[i], Last(states), d)
    ensures forall i: nat, d | i <= |ops| && d in states[i].accepted && Spares(ops[i..], d) ::
      d !in Last(states).retired
  {
    hide Survives, Evolves, Cuts, Spares;
    forall i: nat | i <= |ops| ensures Sound(states[i]) {
      assert i < |ops| ==> Step(states[i], states[i + 1]);
    }
    forall i: nat, d | i <= |ops| && d in states[i].accepted && d !in Last(states).retired
      ensures d in Last(states).accepted && Survives(states[i], Last(states), d)
    {
      DurableForEver(states, i, |states| - 1, d);
    }
    forall i: nat, d | i <= |ops| && d in states[i].accepted && Spares(ops[i..], d)
      ensures d !in Last(states).retired
    {
      Spared(states, ops, i, d);
    }
  }

  lemma SparesRest(ops: seq<Operation>, i: nat, d: Id)
    requires i < |ops| && Spares(ops[i..], d)
    ensures Spares(ops[i + 1..], d) && d !in Dismissed(ops[i])
  {
    Sequences.Around(ops, i);
    var later, rest := ops[i..], ops[i + 1..];
    forall op | op in rest ensures op in later { }
    assert ops[i] in later;
    assert ops[i].Discard? ==> ops[i] == Discard(ops[i].id);
  }

  // A member that no operation discards is not retired.
  lemma {:induction false} Spared(states: seq<Logs>, ops: seq<Operation>, i: nat, d: Id)
    requires RunOf(states, ops) && i <= |ops| && d !in states[i].retired && Spares(ops[i..], d)
    ensures d !in Last(states).retired
    decreases |ops| - i
  {
    hide Run;
    if i < |ops| {
      SparesRest(ops, i, d);
      assert states[i + 1].retired <= states[i].retired + Dismissed(ops[i]);
      Spared(states, ops, i + 1, d);
    }
  }

  // ------------------------------------------------------------- exporting

  /** Exports that follow on each other, all of them durable records of one member. */
  predicate Exports(l: Logs, id: Id, chunks: seq<Chunk>) {
    && Chained(chunks) && (forall c | c in chunks :: DurableChunk(l, id, c))
    && (chunks != [] ==> id in l.accepted && id in l.released && id in l.durable && OnChain(l, id, Last(chunks).end))
  }

  // The end of the last export stays a boundary of the chain, and its records stay what they are.
  lemma ExportsSurvive(a: Logs, b: Logs, id: Id, chunks: seq<Chunk>)
    requires Exports(a, id, chunks) && Step(a, b) && (chunks != [] ==> id in b.accepted)
    ensures Exports(b, id, chunks)
  {
    hide Step, DurableChunk, OnChain, Chained, Survives, Sound;
    if chunks != [] {
      StepSurvives(a, b, id);
      StepSound(a, b);
      OnChainSurvives(a, b, id, Last(chunks).end);
      forall c | c in chunks ensures DurableChunk(b, id, c) { ChunkSurvives(a, b, id, c); }
    }
  }

  lemma StepSound(a: Logs, b: Logs)
    requires Step(a, b)
    ensures Sound(a) && Sound(b) && a.durable.Keys == a.accepted.Keys && b.durable.Keys == b.accepted.Keys
  {
  }

  /** What was exported, put together, is one stretch of the member's durable records. */
  lemma ExportsWhole(l: Logs, id: Id, chunks: seq<Chunk>)
    requires Exports(l, id, chunks) && chunks != []
    ensures id in l.accepted && id in l.durable
    ensures chunks[0].start.seqNo <= Last(chunks).end.seqNo <= l.durable[id] <= |l.accepted[id]|
    ensures AllRecords(chunks) == l.accepted[id][chunks[0].start.seqNo..Last(chunks).end.seqNo]
  {
    hide OnChain, Chained;
    assert Last(chunks) in chunks;
    forall i | 0 <= i < |chunks|
      ensures chunks[i].start.seqNo <= chunks[i].end.seqNo <= |l.accepted[id]|
      ensures chunks[i].records == l.accepted[id][chunks[i].start.seqNo..chunks[i].end.seqNo]
    {
      assert chunks[i] in chunks;
    }
    ExportsPartition(chunks, l.accepted[id]);
  }

  lemma ExportsOn(w: World, id: Id, chunks: seq<Chunk>, c: Chunk, index: Option<ExportIndex>, after: Cursor,
                  maxBytes: nat)
    requires MayRetire(w, id) && Exports(LogsOf(w), id, chunks) && RecordBoundary(w, id, after)
    requires RecordBoundary(w, id, c.end)
    requires ChunkFrom(w, id, index, after, maxBytes, c) && (chunks != [] ==> after == Last(chunks).end)
    ensures Exports(LogsOf(w), id, chunks + [c])
  {
    hide MayRetire, LogsOf, DurableOf, FramesOf, OnChain, ChunkBytes, Reach, CursorAt;
    BoundaryOnChain(w, id, c.end);
    assert forall b | b in chunks + [c] :: b in chunks || b == c;
  }

  // A member's handle that is of use as long as the log is: its index agrees with the log.
  ghost predicate Following(wal: SharedWal, handle: SharedMember, id: Id)
    reads wal, handle
  {
    && handle.owner == wal && handle.id == id && wal.Valid()
    && (handle.exportIndex.Some? ==> !wal.poison && IndexOk(LogsOf(wal.Now()), id, handle.exportIndex.value))
  }

  /** Exports on from where the last export ended, or from the release, whenever that can be answered. */
  method ExportNext(wal: SharedWal, handle: SharedMember, id: Id, maxBytes: nat, chunks: seq<Chunk>)
    returns (more: seq<Chunk>)
    requires Following(wal, handle, id)
    modifies handle
    ensures Following(wal, handle, id)
    ensures Answers(LogsOf(wal.Now()), !wal.poison, id, maxBytes, chunks, more)
    ensures Exports(LogsOf(wal.Now()), id, chunks) ==> Exports(LogsOf(wal.Now()), id, more)
  {
    hide OnDisk, InMemory, LogsOf, IndexOk, Exports, MayRetire, RecordBoundary, ChunkFrom, Deliverable, DeliversTo,
         TooLong;
    ghost var w := wal.Now();
    HealthyIs(w);
    more := chunks;
    if wal.poison { return; }
    if !Current(wal.members, id) || wal.members[id].archive.None? {
      forall from: Cursor ensures !Deliverable(LogsOf(w), id, from, maxBytes) {
        NothingDeliverable(w, id, from, maxBytes);
      }
      return;
    }
    MayRetireNow(w, id);
    var status := handle.ArchiveStatus();
    var after := if chunks == [] then status.value.0 else Last(chunks).end;
    DeliverableIs(w, id, after, maxBytes);
    ghost var index := handle.exportIndex;
    var r := handle.ExportDurable(after, maxBytes);
    if r.Err? { return; }
    more := chunks + [r.value];
    DeliversIs(w, id, index, after, maxBytes, r.value);
    AnswersMore(LogsOf(w), id, after, maxBytes, chunks, r.value, Reach(w, id, index, after));
    if Exports(LogsOf(w), id, chunks) { ExportsOn(w, id, chunks, r.value, index, after, maxBytes); }
  }

  // One operation, and the handle to go on with: a new one after a crash or a fault.
  method FollowOne(wal: SharedWal, handle: SharedMember, id: Id, op: Operation) returns (next: SharedMember)
    requires Following(wal, handle, id) && wal.options.Valid()
    modifies wal, handle
    ensures Following(wal, next, id) && (next == handle || fresh(next))
    ensures StepBut(old(LogsOf(wal.Now())), LogsOf(wal.Now()), Dismissed(op))
    ensures Happens(op, old(Moment(wal.Now(), wal.poison)), Moment(wal.Now(), wal.poison))
  {
    hide OnDisk, InMemory, LogsOf, IndexOk, Step, Grows, RecordBoundary, Happens, Outcome, Framed, OthersKept, Lingers,
         Rereleases, Tight;
    ghost var w, before := wal.Now(), Moment(wal.Now(), wal.poison);
    ghost var index := handle.exportIndex;
    next := handle;
    if op.Release? && op.id == id && Current(wal.members, id) {
      var r := handle.ReleaseArchive(op.through);
      GrowsStep(w, wal.Now());
      ReleaseHappens(op, before, Moment(wal.Now(), wal.poison));
      if wal.poison { next := new SharedMember(wal, id); }
      return;
    }
    var done := Do(wal, op);
    OutcomeHappens(op, before, Moment(wal.Now(), wal.poison), done);
    if op.Reboot? || wal.poison || !Current(wal.members, id) {
      next := new SharedMember(wal, id);
    } else if handle.exportIndex.Some? {
      CurrentAccepted(wal.Now(), id);
      IndexSteps(LogsOf(w), LogsOf(wal.Now()), id, handle.exportIndex.value);
    }
  }

  lemma ReleaseHappens(op: Operation, a: Moment, b: Moment)
    requires op.Release? && b.world.past.accepted == a.world.past.accepted && (a.poison ==> b.poison)
    requires OthersKept(a.world, b.world, op.id) && Lingers(a.world, b.world, op.id)
    requires StaysOpen(a.world, b.world, op.id)
    requires Rereleases(a.world.disk.ledger, b.world.disk.ledger, op.id, op.through)
    requires b.world.past.protections == a.world.past.protections
    requires OnDisk(a.world) && OnDisk(b.world) && Grows(LogsOf(a.world), LogsOf(b.world))
    requires var w, v := a.world, b.world;
      || b.poison || !RecordBoundary(w, op.id, op.through)
      || (op.id in v.mem.members && v.mem.members[op.id].archive.Some?
          && v.mem.members[op.id].archive.value.released == op.through
          && (v.disk.ledger != w.disk.ledger ==> Tight(v)))
    ensures Happens(op, a, b)
  {
    hide Tight, RecordBoundary, OthersKept, Lingers, Rereleases, OnDisk, LogsOf, Grows, KeepsQuotas;
    ReleaseKeeps(a.world, b.world, op.id, op.through);
  }

  lemma CurrentAccepted(w: World, id: Id)
    requires OnDisk(w) && InMemory(w) && Current(w.mem.members, id)
    ensures id in w.past.accepted && id in LogsOf(w).accepted
  {
    hide OnDisk, InMemory, DurableOf, FramesOf;
    HealthyIs(w);
    MayRetireNow(w, id);
    OpenRecords(w, id);
  }

  lemma IndexSteps(a: Logs, b: Logs, id: Id, x: ExportIndex)
    requires Step(a, b) && IndexOk(a, id, x) && id in b.accepted
    ensures IndexOk(b, id, x)
  {
    hide IndexOk, Grows, Cuts, Sound, Survives;
    StepSurvives(a, b, id);
    IndexSurvives(a, b, id, x);
  }

  // A step that does not retire the member keeps what was exported of it.
  lemma ExportsStep(a: Logs, b: Logs, id: Id, chunks: seq<Chunk>)
    requires Step(a, b) && id !in b.retired
    ensures id !in a.retired
    ensures Exports(a, id, chunks) ==> Exports(b, id, chunks)
  {
    hide DurableChunk, OnChain, Chained, Retains;
    if Exports(a, id, chunks) { ExportsSurvive(a, b, id, chunks); }
  }

  /** What a reader takes from one operation: the answer to an export, and nothing from any other. */
  ghost predicate Reads(op: Operation, m: Moment, l: Logs, id: Id, before: seq<Chunk>, after: seq<Chunk>) {
    if op.Export? then Answers(l, !m.poison, id, op.maxBytes, before, after) else after == before
  }

  /** What a reader holds at every moment of a run. */
  ghost predicate Reading(trace: seq<Moment>, states: seq<Logs>, ops: seq<Operation>, id: Id, held: seq<seq<Chunk>>) {
    && |held| == |trace| == |states| == |ops| + 1 && held[0] == []
    && forall i | 0 <= i < |ops| :: Reads(ops[i], trace[i], states[i], id, held[i], held[i + 1])
  }

  lemma ReadingOn(trace: seq<Moment>, states: seq<Logs>, ops: seq<Operation>, id: Id, held: seq<seq<Chunk>>,
                  next: Moment, later: Logs, op: Operation, more: seq<Chunk>)
    requires Reading(trace, states, ops, id, held) && Reads(op, Last(trace), Last(states), id, Last(held), more)
    ensures Reading(trace + [next], states + [later], ops + [op], id, held + [more])
  {
    hide Reads;
    var all, now, done, kept := trace + [next], states + [later], ops + [op], held + [more];
    forall i | 0 <= i < |done| ensures Reads(done[i], all[i], now[i], id, kept[i], kept[i + 1]) {
      if i < |ops| {
        assert all[i] == trace[i] && now[i] == states[i] && done[i] == ops[i];
        assert kept[i] == held[i] && kept[i + 1] == held[i + 1];
      }
    }
  }

  /** A release of the member at some moment. */
  ghost predicate Begun(states: seq<Logs>, id: Id, start: Cursor) {
    exists i :: 0 <= i < |states| && id in states[i].released && start == states[i].released[id]
  }

  // Answers only add chunks, the first of them from a release.
  lemma ReadsGrow(op: Operation, m: Moment, l: Logs, id: Id, before: seq<Chunk>, after: seq<Chunk>)
    requires Reads(op, m, l, id, before, after)
    ensures before <= after
    ensures before == [] && after != [] ==> id in l.released && after[0].start == l.released[id]
  {
    hide OnChain, CursorAt, ChunkBytes;
    if after != before { assert after == after[..|before|] + after[|before|..]; }
  }

  /** The first chunk of a reader begins at a release. */
  lemma {:induction false} FirstBegins(trace: seq<Moment>, states: seq<Logs>, ops: seq<Operation>, id: Id,
                                       held: seq<seq<Chunk>>, k: nat)
    requires Reading(trace, states, ops, id, held) && k < |held|
    ensures held[k] != [] ==> Begun(states, id, held[k][0].start)
    decreases k
  {
    hide Reads;
    if k > 0 {
      FirstBegins(trace, states, ops, id, held, k - 1);
      assert Reads(ops[k - 1], trace[k - 1], states[k - 1], id, held[k - 1], held[k - 1 + 1]);
      ReadsGrow(ops[k - 1], trace[k - 1], states[k - 1], id, held[k - 1], held[k]);
    }
  }

  // The chunk of an export, within that export's budget.
  ghost predicate Budgeted(ops: seq<Operation>, held: seq<seq<Chunk>>, chunks: seq<Chunk>, k: nat, i: nat)
    requires |held| == |ops| + 1 && k < |chunks| && i < |ops|
  {
    && ops[i].Export? && held[i] == chunks[..k] && held[i + 1] == chunks[..k + 1]
    && ChunkBytes(chunks[k].records) <= ops[i].maxBytes
  }

  ghost predicate OfOneExport(ops: seq<Operation>, held: seq<seq<Chunk>>, chunks: seq<Chunk>, k: nat)
    requires |held| == |ops| + 1 && k < |chunks|
  {
    exists i: nat :: i < |ops| && Budgeted(ops, held, chunks, k, i)
  }

  /** Every chunk is the answer to one export of the run, and within the budget of that export. */
  lemma {:induction false} EachBudgeted(trace: seq<Moment>, states: seq<Logs>, ops: seq<Operation>, id: Id,
                                        held: seq<seq<Chunk>>, j: nat, k: nat)
    requires Reading(trace, states, ops, id, held) && j < |held| && k < |held[j]|
    ensures exists i: nat :: i < j && Budgeted(ops, held, held[j], k, i)
    decreases j
  {
    hide Answers;
    if j > 0 {
      var a, b := held[j - 1], held[j - 1 + 1];
      assert Reads(ops[j - 1], trace[j - 1], states[j - 1], id, a, b);
      ReadsGrow(ops[j - 1], trace[j - 1], states[j - 1], id, a, b);
      if k < |a| {
        EachBudgeted(trace, states, ops, id, held, j - 1, k);
        var i: nat :| i < j - 1 && Budgeted(ops, held, a, k, i);
        assert b[..k] == a[..k] && b[..k + 1] == a[..k + 1] && b[k] == a[k];
        assert Budgeted(ops, held, b, k, i);
      } else {
        AnswerBudgeted(states[j - 1], !trace[j - 1].poison, id, ops[j - 1].maxBytes, a, b);
        Sequences.Neutral(b);
        assert Budgeted(ops, held, b, k, j - 1);
      }
    }
  }

  lemma AnswerBudgeted(l: Logs, open: bool, id: Id, maxBytes: nat, before: seq<Chunk>, after: seq<Chunk>)
    requires Answers(l, open, id, maxBytes, before, after) && after != before
    ensures |after| == |before| + 1 && after[..|before|] == before && ChunkBytes(Last(after).records) <= maxBytes
  {
    hide OnChain, CursorAt, ChunkBytes;
  }

  // One operation of a run with a reader.
  method FollowStep(wal: SharedWal, handle: SharedMember, id: Id, op: Operation, chunks: seq<Chunk>,
                    ghost states: seq<Logs>, ghost ops: seq<Operation>)
    returns (next: SharedMember, more: seq<Chunk>)
    requires Following(wal, handle, id) && wal.options.Valid()
    requires RunOf(states, ops) && Last(states) == LogsOf(wal.Now())
    requires id !in LogsOf(wal.Now()).retired ==> Exports(LogsOf(wal.Now()), id, chunks)
    modifies wal, handle
    ensures Following(wal, next, id) && (next == handle || fresh(next))
    ensures RunOf(states + [LogsOf(wal.Now())], ops + [op])
    ensures id !in LogsOf(wal.Now()).retired ==> Exports(LogsOf(wal.Now()), id, more)
    ensures Happens(op, old(Moment(wal.Now(), wal.poison)), Moment(wal.Now(), wal.poison))
    ensures Reads(op, old(Moment(wal.Now(), wal.poison)), old(LogsOf(wal.Now())), id, chunks, more)
  {
    hide OnDisk, InMemory, LogsOf, Step, IndexOk, Exports, RunOf, Sound, Answers, Happens, Framed;
    ghost var before := LogsOf(wal.Now());
    next, more := handle, chunks;
    if op.Export? {
      more := ExportNext(wal, handle, id, op.maxBytes, chunks);
      LogsSound(wal.Now());
      StepSelf(before);
      ExportDone(op.maxBytes, wal.Now());
      OutcomeHappens(op, Moment(wal.Now(), wal.poison), Moment(wal.Now(), wal.poison), true);
    } else {
      next := FollowOne(wal, handle, id, op);
    }
    RunOfOn(states, ops, LogsOf(wal.Now()), op);
    if id !in LogsOf(wal.Now()).retired { ExportsStep(before, LogsOf(wal.Now()), id, chunks); }
  }

  /**
   A run with a reader that exports one member's history whenever the run says so. Each export
   that can be answered adds one chunk, within its own budget, from where the reader stands; the
   first begins at the release of that moment. Whatever happens in between, growth, rolls, seals,
   releases, reclaiming or crashes, the exports follow on each other, and put together they are
   one stretch of the durable records.
   */
  method Follow(wal: SharedWal, id: Id, ops: seq<Operation>)
    returns (ghost states: seq<Logs>, ghost trace: seq<Moment>, ghost held: seq<seq<Chunk>>, chunks: seq<Chunk>)
    requires wal.Valid() && wal.options.Valid()
    modifies wal
    ensures wal.Valid()
    ensures RunOf(states, ops) && states[0] == old(LogsOf(wal.Now())) && Last(states) == LogsOf(wal.Now())
    ensures History(trace, states, ops)
    ensures trace[0] == old(Moment(wal.Now(), wal.poison)) && Last(trace) == Moment(wal.Now(), wal.poison)
    ensures Reading(trace, states, ops, id, held) && Last(held) == chunks
    ensures chunks != [] ==> Begun(states, id, chunks[0].start)
    ensures forall k: nat | k < |chunks| :: OfOneExport(ops, held, chunks, k)
    ensures id !in Last(states).retired ==> Exports(LogsOf(wal.Now()), id, chunks)
    ensures id !in Last(states).retired && chunks != [] ==>
      id in wal.past.accepted && chunks[0].start.seqNo <= Last(chunks).end.seqNo <= |wal.past.accepted[id]|
    ensures id !in Last(states).retired && chunks != [] ==>
      AllRecords(chunks) == wal.past.accepted[id][chunks[0].start.seqNo..Last(chunks).end.seqNo]
  {
    hide OnDisk, InMemory, LogsOf, IndexOk, Exports, RunOf, History, Happens, Reading, Reads, Begun,
         OfOneExport;
    states, trace, held, chunks := [LogsOf(wal.Now())], [Moment(wal.Now(), wal.poison)], [[]], [];
    var handle := new SharedMember(wal, id);
    FollowBegins(trace[0], id);
    for i := 0 to |ops|
      invariant Following(wal, handle, id) && fresh(handle)
      invariant |states| == i + 1 && states[0] == old(LogsOf(wal.Now())) && Last(states) == LogsOf(wal.Now())
      invariant RunOf(states, ops[..i])
      invariant History(trace, states, ops[..i]) && |trace| == i + 1
      invariant trace[0] == old(Moment(wal.Now(), wal.poison)) && Last(trace) == Moment(wal.Now(), wal.poison)
      invariant Reading(trace, states, ops[..i], id, held) && |held| == i + 1 && Last(held) == chunks
      invariant id !in LogsOf(wal.Now()).retired ==> Exports(LogsOf(wal.Now()), id, chunks)
    {
      handle, chunks := FollowStep(wal, handle, id, ops[i], chunks, states, ops[..i]);
      ghost var next := Moment(wal.Now(), wal.poison);
      HistoryOn(trace, states, ops[..i], next, ops[i]);
      ReadingOn(trace, states, ops[..i], id, held, next, LogsOf(wal.Now()), ops[i], chunks);
      Sequences.Around(ops, i);
      states, trace, held := states + [LogsOf(wal.Now())], trace + [next], held + [chunks];
    }
    Sequences.Neutral(ops);
    ReadingEnds(trace, states, ops, id, held);
    if id !in Last(states).retired { ExportsJoined(wal.Now(), id, chunks); }
  }

  lemma FollowBegins(m: Moment, id: Id)
    ensures RunOf([LogsOf(m.world)], []) && History([m], [LogsOf(m.world)], [])
    ensures Reading([m], [LogsOf(m.world)], [], id, [[]]) && Exports(LogsOf(m.world), id, [])
  {
    hide LogsOf;
    HistoryOne(m);
    RunOne(LogsOf(m.world));
    NothingExported(LogsOf(m.world), id);
  }

  lemma ReadingEnds(trace: seq<Moment>, states: seq<Logs>, ops: seq<Operation>, id: Id, held: seq<seq<Chunk>>)
    requires Reading(trace, states, ops, id, held)
    ensures |held| == |ops| + 1
    ensures Last(held) != [] ==> Begun(states, id, Last(held)[0].start)
    ensures forall k: nat | k < |Last(held)| :: OfOneExport(ops, held, Last(held), k)
  {
    hide Reads, Budgeted;
    FirstBegins(trace, states, ops, id, held, |ops|);
    forall k: nat | k < |Last(held)| ensures OfOneExport(ops, held, Last(held), k) {
      EachBudgeted(trace, states, ops, id, held, |ops|, k);
    }
  }

  lemma RunOne(l: Logs)
    ensures RunOf([l], [])
  {
  }

  lemma ExportsJoined(w: World, id: Id, chunks: seq<Chunk>)
    requires Exports(LogsOf(w), id, chunks)
    ensures chunks != [] ==>
      && id in w.past.accepted && chunks[0].start.seqNo <= Last(chunks).end.seqNo <= |w.past.accepted[id]|
      && AllRecords(chunks) == w.past.accepted[id][chunks[0].start.seqNo..Last(chunks).end.seqNo]
  {
    hide Exports, LogsOf;
    AcceptedIs(w);
    if chunks != [] { ExportsWhole(LogsOf(w), id, chunks); }
  }

  lemma NothingExported(l: Logs, id: Id)
    ensures Exports(l, id, [])
  {
  }

  lemma StepSelf(a: Logs)
    requires Sound(a)
    ensures StepBut(a, a, {})
  {
  }

  lemma AcceptedIs(w: World)
    ensures LogsOf(w).accepted == w.past.accepted
  {
    hide DurableOf, FramesOf;
  }

  // One more export: another chunk, or a reason to stop.
  method ExportMore(wal: SharedWal, handle: SharedMember, id: Id, after: Cursor, maxBytes: nat, chunks: seq<Chunk>,
                    end: Cursor)
    returns (more: Option<Chunk>, complete: bool)
    requires Following(wal, handle, id) && !wal.poison && Current(wal.members, id)
    requires Collected(wal.Now(), id, after, chunks, end)
    requires InBudget(maxBytes)
    modifies handle
    ensures Following(wal, handle, id) && RecordBoundary(wal.Now(), id, end) && id in wal.disk.ledger.manifests
    ensures more.Some? ==> Collected(wal.Now(), id, after, chunks + [more.value], more.value.end)
    ensures more.Some? ==> Ahead(wal.Now(), id, more.value.end) < Ahead(wal.Now(), id, end)
    ensures more.Some? ==> ChunkBytes(more.value.records) <= maxBytes
    ensures more.None? ==>
      if complete then end.seqNo == DurableOf(wal.Now(), id) else TooLong(wal.Now(), id, end, maxBytes)
  {
    hide OnDisk, InMemory, LogsOf, IndexOk, Exports, MayRetire, RecordBoundary, ChunkFrom, TooLong, DurableOf,
         Collected, Ahead, ChunkBytes;
    ghost var w := wal.Now();
    HealthyIs(w);
    MayRetireNow(w, id);
    CollectedEnd(w, id, after, chunks, end);
    ghost var index := handle.exportIndex;
    var r := handle.ExportDurable(end, maxBytes);
    if r.Err? { return None, false; }
    CollectedOn(w, id, after, chunks, end, index, maxBytes, r.value);
    ChunkWithin(w, id, index, end, maxBytes, r.value);
    if r.value.records == [] { return None, true; }
    return Some(r.value), false;
  }

  /**
   Exports until nothing is left: the chunks follow on from a boundary and reach the durable
   end, unless a record is too long for any chunk of this size.
   */
  method ExportAll(wal: SharedWal, handle: SharedMember, id: Id, after: Cursor, maxBytes: nat)
    returns (chunks: seq<Chunk>, complete: bool)
    requires Following(wal, handle, id) && !wal.poison && RecordBoundary(wal.Now(), id, after)
    requires Current(wal.members, id)
    requires InBudget(maxBytes)
    modifies handle
    ensures Following(wal, handle, id) && AllWithin(chunks, maxBytes)
    ensures var end := if chunks == [] then after else Last(chunks).end;
      && (chunks != [] ==> chunks[0].start == after) && RecordBoundary(wal.Now(), id, end)
      && Exports(LogsOf(wal.Now()), id, chunks)
      && after.seqNo <= end.seqNo && AllRecords(chunks) == wal.past.accepted[id][after.seqNo..end.seqNo]
      && (if complete then end.seqNo == DurableOf(wal.Now(), id) else TooLong(wal.Now(), id, end, maxBytes))
  {
    hide OnDisk, InMemory, LogsOf, IndexOk, Exports, MayRetire, RecordBoundary, TooLong, DurableOf, Collected, Ahead,
         ChunkBytes;
    ghost var w := wal.Now();
    chunks := [];
    var end := after;
    CollectedStart(w, id, after);
    while true
      invariant Following(wal, handle, id) && Collected(w, id, after, chunks, end) && AllWithin(chunks, maxBytes)
      decreases Ahead(w, id, end)
    {
      CollectedEnd(w, id, after, chunks, end);
      var more, done := ExportMore(wal, handle, id, after, maxBytes, chunks, end);
      if more.None? { return chunks, done; }
      chunks, end := chunks + [more.value], more.value.end;
    }
  }

  // Chunks that lead from one boundary to another.
  ghost predicate Collected(w: World, id: Id, after: Cursor, chunks: seq<Chunk>, end: Cursor) {
    && RecordBoundary(w, id, after) && RecordBoundary(w, id, end) && Exports(LogsOf(w), id, chunks)
    && end == (if chunks == [] then after else Last(chunks).end) && (chunks != [] ==> chunks[0].start == after)
  }

  lemma CollectedEnd(w: World, id: Id, after: Cursor, chunks: seq<Chunk>, end: Cursor)
    requires Collected(w, id, after, chunks, end)
    ensures end == (if chunks == [] then after else Last(chunks).end) && (chunks != [] ==> chunks[0].start == after)
    ensures RecordBoundary(w, id, end) && Exports(LogsOf(w), id, chunks) && id in w.disk.ledger.manifests
    ensures id in w.past.accepted && after.seqNo <= end.seqNo <= |w.past.accepted[id]|
    ensures AllRecords(chunks) == w.past.accepted[id][after.seqNo..end.seqNo]
  {
    hide Exports, DurableOf, LogsOf, CursorAt;
    ExportsJoined(w, id, chunks);
    if chunks == [] { assert w.past.accepted[id][after.seqNo..after.seqNo] == []; }
  }

  lemma CollectedOn(w: World, id: Id, after: Cursor, chunks: seq<Chunk>, end: Cursor, index: Option<ExportIndex>,
                    maxBytes: nat, c: Chunk)
    requires MayRetire(w, id) && Collected(w, id, after, chunks, end) && RecordBoundary(w, id, c.end)
    requires ChunkFrom(w, id, index, end, maxBytes, c) && (index.Some? ==> IndexOk(LogsOf(w), id, index.value))
    ensures Collected(w, id, after, chunks + [c], c.end)
    ensures id in w.disk.ledger.manifests
    ensures if c.records == [] then end.seqNo == DurableOf(w, id) else Ahead(w, id, c.end) < Ahead(w, id, end)
  {
    hide DurableOf, LogsOf, Exports, IndexOk, MayRetire, ChunkFrom;
    BoundaryMember(w, id, end);
    ChunkAhead(w, id, index, end, maxBytes, c);
    ExportsOn(w, id, chunks, c, index, end, maxBytes);
  }

  lemma ChunkWithin(w: World, id: Id, index: Option<ExportIndex>, after: Cursor, maxBytes: nat, c: Chunk)
    requires RecordBoundary(w, id, after) && ChunkFrom(w, id, index, after, maxBytes, c)
    ensures ChunkBytes(c.records) <= maxBytes
  {
    hide RecordBoundary, ChunkBytes, Reach;
  }

  // Every chunk keeps to a budget.
  predicate AllWithin(chunks: seq<Chunk>, maxBytes: nat) { forall c | c in chunks :: ChunkBytes(c.records) <= maxBytes }

  // What an export from here may still deliver.
  ghost function Ahead(w: World, d: Id, c: Cursor): nat {
    if d in w.past.accepted && c.seqNo <= |w.past.accepted[d]| then |w.past.accepted[d]| - c.seqNo else 0
  }

  lemma CollectedStart(w: World, id: Id, after: Cursor)
    requires RecordBoundary(w, id, after)
    ensures Collected(w, id, after, [], after)
  {
    hide RecordBoundary, LogsOf;
  }

  // ---------------------------------------------------- a run and its end

  lemma ExportsAppend(l: Logs, id: Id, a: seq<Chunk>, b: seq<Chunk>)
    requires Exports(l, id, a) && Exports(l, id, b) && (a != [] && b != [] ==> b[0].start == Last(a).end)
    ensures Exports(l, id, a + b)
  {
    hide DurableChunk, OnChain;
    if b == [] { Sequences.Neutral(a); } else {
      var all := a + b;
      assert Last(all) == Last(b);
      forall i | 0 < i < |all| ensures all[i].start == all[i - 1].end {
        if i < |a| { assert all[i] == a[i]; }
        else if i > |a| { assert all[i] == b[i - |a|] && all[i - 1] == b[i - |a| - 1]; }
      }
    }
  }

  // Where the reader goes on after a run.
  lemma ReaderStands(w: World, id: Id, chunks: seq<Chunk>)
    requires MayRetire(w, id) && w.mem.members[id].archive.Some? && Exports(LogsOf(w), id, chunks)
    ensures var released := w.mem.members[id].archive.value.released;
      && (chunks == [] ==> RecordBoundary(w, id, released))
      && (chunks != [] && released.seqNo <= Last(chunks).end.seqNo ==> RecordBoundary(w, id, Last(chunks).end))
  {
    hide MayRetire, RecordBoundary, LogsOf, OnChain, Chained, DurableChunk;
    EarliestBoundary(w, id);
    if chunks != [] { BoundaryOnChain(w, id, Last(chunks).end); }
  }

  // Where a reader stands: at the end of its last chunk, or at the release.
  ghost function ReaderEnd(w: World, id: Id, chunks: seq<Chunk>): Cursor
    requires id in w.mem.members && w.mem.members[id].archive.Some?
  {
    if chunks == [] then w.mem.members[id].archive.value.released else Last(chunks).end
  }

  /**
   Why a reader cannot reach the durable end: there is nothing to export from, it was overtaken
   by a release, or the very next record is too long for its budget.
   */
  ghost predicate Stuck(w: World, id: Id, chunks: seq<Chunk>, maxBytes: nat) {
    || id !in w.mem.members || w.mem.members[id].retired || w.mem.members[id].archive.None?
    || ReaderEnd(w, id, chunks).seqNo < w.mem.members[id].archive.value.released.seqNo
    || (RecordBoundary(w, id, ReaderEnd(w, id, chunks)) && id in w.disk.ledger.manifests
        && TooLong(w, id, ReaderEnd(w, id, chunks), maxBytes))
  }

  /** Where the chunks of a reader begin: with the first of them, or else at the release. */
  function Beginning(l: Logs, id: Id, chunks: seq<Chunk>): Cursor
    requires id in l.released
  {
    if chunks != [] then chunks[0].start else l.released[id]
  }

  /** The chunks together are exactly the durable records above where they begin. */
  predicate Everything(l: Logs, id: Id, chunks: seq<Chunk>) {
    && id in l.accepted && id in l.released && id in l.durable
    && Beginning(l, id, chunks).seqNo <= l.durable[id] <= |l.accepted[id]|
    && AllRecords(chunks) == l.accepted[id][Beginning(l, id, chunks).seqNo..l.durable[id]]
  }

  /**
   The export law over whole runs: after any run, with any exports in it, the reader catches
   up, and all its chunks together are exactly the durable records above a release: the release
   of the moment at which it took its first chunk.
   */
  method FollowToEnd(wal: SharedWal, id: Id, ops: seq<Operation>, maxBytes: nat)
    returns (ghost states: seq<Logs>, ghost trace: seq<Moment>, ghost held: seq<seq<Chunk>>, chunks: seq<Chunk>,
             complete: bool)
    requires wal.Valid() && wal.options.Valid() && InBudget(maxBytes)
    modifies wal
    ensures wal.Valid()
    ensures RunOf(states, ops) && states[0] == old(LogsOf(wal.Now())) && Last(states) == LogsOf(wal.Now())
    ensures History(trace, states, ops)
    ensures trace[0] == old(Moment(wal.Now(), wal.poison)) && Last(trace) == Moment(wal.Now(), wal.poison)
    ensures Reading(trace, states, ops, id, held) && Last(held) <= chunks
    ensures AllWithin(chunks[|Last(held)|..], maxBytes)
    ensures chunks != [] ==> Begun(states, id, chunks[0].start)
    ensures id !in Last(states).retired ==> Exports(LogsOf(wal.Now()), id, chunks)
    ensures id !in Last(states).retired && chunks != [] ==>
      && id in wal.past.accepted && chunks[0].start.seqNo <= Last(chunks).end.seqNo <= |wal.past.accepted[id]|
      && AllRecords(chunks) == wal.past.accepted[id][chunks[0].start.seqNo..Last(chunks).end.seqNo]
    ensures id !in Last(states).retired && complete ==> Everything(LogsOf(wal.Now()), id, chunks)
    ensures id !in Last(states).retired && !complete ==> wal.poison || Stuck(wal.Now(), id, chunks, maxBytes)
  {
    hide OnDisk, InMemory, LogsOf, Exports, RunOf, History, Reading, Begun, OfOneExport, Everything, AllWithin,
         Stuck;
    states, trace, held, chunks := Follow(wal, id, ops);
    ReadingSize(trace, states, ops, id, held);
    var more;
    more, complete := CatchUp(wal, id, chunks, maxBytes);
    Joined(states, id, chunks, more);
    chunks := chunks + more;
    if Exports(LogsOf(wal.Now()), id, chunks) { ExportsJoined(wal.Now(), id, chunks); }
  }

  /** Exports on from where a reader stands until nothing is left, or says why it cannot. */
  method CatchUp(wal: SharedWal, id: Id, early: seq<Chunk>, maxBytes: nat)
    returns (more: seq<Chunk>, complete: bool)
    requires wal.Valid() && InBudget(maxBytes)
    ensures AllWithin(more, maxBytes)
    ensures early == [] && more != [] ==>
      id in LogsOf(wal.Now()).released && more[0].start == LogsOf(wal.Now()).released[id]
    ensures Exports(LogsOf(wal.Now()), id, early) ==> Exports(LogsOf(wal.Now()), id, early + more)
    ensures Exports(LogsOf(wal.Now()), id, early) && complete ==> Everything(LogsOf(wal.Now()), id, early + more)
    ensures Exports(LogsOf(wal.Now()), id, early) && !complete ==>
      wal.poison || Stuck(wal.Now(), id, early + more, maxBytes)
  {
    hide OnDisk, InMemory, LogsOf, IndexOk, Exports, MayRetire, RecordBoundary, TooLong, DurableOf, Everything,
         AllWithin, Stuck;
    ghost var w := wal.Now();
    Sequences.Neutral(early);
    NothingLarge(maxBytes);
    more, complete := [], false;
    if wal.poison { return; }
    HealthyIs(w);
    if !Current(wal.members, id) || wal.members[id].archive.None? {
      StuckUnprotected(w, id, early, maxBytes);
      return;
    }
    MayRetireNow(w, id);
    var released := wal.members[id].archive.value.released;
    var after := if early == [] then released else Last(early).end;
    BoundaryOnChain(w, id, after);
    if after.seqNo < released.seqNo {
      StuckOvertaken(w, id, early, maxBytes);
      return;
    }
    var handle := new SharedMember(wal, id);
    var verified := handle.VerifyCursor(after);
    if verified.Err? {
      if Exports(LogsOf(w), id, early) { ReaderStands(w, id, early); }
      return;
    }
    handle := new SharedMember(wal, id);
    BoundaryMember(w, id, after);
    more, complete := ExportAll(wal, handle, id, after, maxBytes);
    if Exports(LogsOf(w), id, early) { CaughtUp(w, id, after, early, more, complete, maxBytes); }
  }

  lemma ReadingSize(trace: seq<Moment>, states: seq<Logs>, ops: seq<Operation>, id: Id, held: seq<seq<Chunk>>)
    requires Reading(trace, states, ops, id, held)
    ensures |held| == |states| == |ops| + 1
  {
    hide Reads;
  }

  lemma NothingLarge(maxBytes: nat)
    ensures AllWithin([], maxBytes)
  {
  }

  lemma StuckUnprotected(w: World, id: Id, chunks: seq<Chunk>, maxBytes: nat)
    requires !Current(w.mem.members, id) || w.mem.members[id].archive.None?
    ensures Stuck(w, id, chunks, maxBytes)
  {
    hide RecordBoundary, TooLong;
  }

  lemma StuckOvertaken(w: World, id: Id, chunks: seq<Chunk>, maxBytes: nat)
    requires id in w.mem.members && w.mem.members[id].archive.Some?
    requires ReaderEnd(w, id, chunks).seqNo < w.mem.members[id].archive.value.released.seqNo
    ensures Stuck(w, id, chunks, maxBytes)
  {
    hide RecordBoundary, TooLong;
  }

  // What the reader held stays in front, and its beginning is that of the whole.
  lemma Joined(states: seq<Logs>, id: Id, early: seq<Chunk>, more: seq<Chunk>)
    requires states != [] && (early != [] ==> Begun(states, id, early[0].start))
    requires early == [] && more != [] ==>
      id in Last(states).released && more[0].start == Last(states).released[id]
    ensures early <= early + more && (early + more)[|early|..] == more
    ensures early + more != [] ==> Begun(states, id, (early + more)[0].start)
  {
    Sequences.Parts(early, more);
    if early == [] && more != [] {
      assert (early + more)[0] == more[0];
      assert Last(states) == states[|states| - 1];
    }
  }

  // A reader that is caught up, or one that cannot go on.
  ghost predicate Ending(w: World, id: Id, end: Cursor, complete: bool, maxBytes: nat) {
    && RecordBoundary(w, id, end) && id in w.disk.ledger.manifests
    && if complete then end.seqNo == DurableOf(w, id) else TooLong(w, id, end, maxBytes)
  }

  lemma CaughtUp(w: World, id: Id, after: Cursor, chunks: seq<Chunk>, more: seq<Chunk>, complete: bool, maxBytes: nat)
    requires Exports(LogsOf(w), id, chunks) && Exports(LogsOf(w), id, more)
    requires MayRetire(w, id) && w.mem.members[id].archive.Some? && after == ReaderEnd(w, id, chunks)
    requires more != [] ==> more[0].start == after
    requires Ending(w, id, if more == [] then after else Last(more).end, complete, maxBytes)
    ensures Exports(LogsOf(w), id, chunks + more)
    ensures complete ==> Everything(LogsOf(w), id, chunks + more)
    ensures !complete ==> Stuck(w, id, chunks + more, maxBytes)
  {
    hide Exports, LogsOf, RecordBoundary, TooLong, DurableOf, MayRetire, OnChain, FramesOf;
    ExportsAppend(LogsOf(w), id, chunks, more);
    ExportsJoined(w, id, chunks + more);
    BoundaryOnChain(w, id, after);
    if more != [] { assert Last(chunks + more) == Last(more); } else { Sequences.Neutral(chunks); }
    if complete && chunks + more == [] { assert w.past.accepted[id][after.seqNo..after.seqNo] == []; }
  }
}
