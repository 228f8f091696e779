/** Opening one member's database on the open log: what the replay finds and what it restores. */
module LogReopen {
  import opened Prelude
  import opened FrameFormat
  import opened LogLayout
  import opened LogState
  import opened LogWrites
  import opened LogScanLaws
  import opened LogScanExact
  import opened LogMembers
  import opened LogSeal
  import opened LogOpen
  import opened LogReplay
  import Sequences

  function Joined<T>(head: seq<T>, rest: Result<seq<T>>): Result<seq<T>> {
    match rest case Err(e) => Err(e) case Ok(tail) => Ok(head + tail)
  }

  lemma JoinedSnoc<T>(head: seq<T>, x: T, rest: Result<seq<T>>)
    ensures Joined(head + [x], rest) == Joined(head, Joined([x], rest))
  {
    if rest.Ok? { Sequences.Associative(head, [x], rest.value); }
  }

  lemma JoinedNothing<T>(head: seq<T>)
    ensures Joined(head, Ok([])) == Ok(head)
  {
    Sequences.Neutral(head);
  }

  lemma JoinedAll<T>(rest: Result<seq<T>>)
    ensures Joined([], rest) == rest
  {
    if rest.Ok? { Sequences.Neutral(rest.value); }
  }

  /** The backward pass: positions of a member's frames, newest first. */
  method WalkBack(files: seq<File>, id: Id, latest: Pointer, last: nat, checkpoint: nat)
    returns (r: Result<seq<Pointer>>)
    ensures r.Ok? <==> Backward(files, id, latest, last, checkpoint).Ok?
    ensures r.Ok? ==> r == Backward(files, id, latest, last, checkpoint)
  {
    hide ReadFrame, Below, Joined;
    var pointer := latest;
    var seqNo: nat := last;
    var scratch: seq<Pointer> := [];
    JoinedAll(Backward(files, id, latest, last, checkpoint));
    while seqNo > checkpoint
      invariant Joined(scratch, Backward(files, id, pointer, seqNo, checkpoint)) ==
          Backward(files, id, latest, last, checkpoint)
      decreases seqNo
    {
      JoinedFails(scratch, Backward(files, id, pointer, seqNo, checkpoint));
      if pointer == NOWHERE { return Err(Corruption); }
      var read := ReadFrame(files, pointer);
      if read.Err? { return Err(read.error); }
      var frame := read.value;
      if frame.id != id || frame.seqNo != seqNo || (frame.previous != NOWHERE && !Below(frame.previous, pointer)) {
        return Err(Corruption);
      }
      JoinedSnoc(scratch, pointer, Backward(files, id, frame.previous, seqNo - 1, checkpoint));
      JoinedIs(pointer, Backward(files, id, frame.previous, seqNo - 1, checkpoint));
      scratch := scratch + [pointer];
      pointer, seqNo := frame.previous, seqNo - 1;
    }
    JoinedNothing(scratch);
    return Ok(scratch);
  }

  lemma JoinedFails<T>(head: seq<T>, rest: Result<seq<T>>)
    ensures Joined(head, rest).Ok? <==> rest.Ok?
  {
  }

  lemma JoinedIs<T>(x: T, rest: Result<seq<T>>)
    ensures Joined([x], rest) == match rest case Err(e) => Err(e) case Ok(tail) => Ok([x] + tail)
  {
  }

  /** The forward pass: the records at those positions, oldest first. */
  method ReadForward(files: seq<File>, scratch: seq<Pointer>, first: nat) returns (r: Result<seq<Raw>>)
    ensures r.Ok? <==> Forward(files, scratch, first).Ok?
    ensures r.Ok? ==> r == Forward(files, scratch, first)
  {
    hide ReadFrame, Joined;
    var index: nat := |scratch|;
    var next: nat := first;
    var records: seq<Raw> := [];
    Sequences.Neutral(scratch);
    JoinedAll(Forward(files, scratch, first));
    while index > 0
      invariant index <= |scratch|
      invariant Joined(records, Forward(files, scratch[..index], next)) == Forward(files, scratch, first)
      decreases index
    {
      JoinedFails(records, Forward(files, scratch[..index], next));
      Sequences.Take(scratch, index - 1, index);
      index := index - 1;
      var read := ReadFrame(files, scratch[index]);
      if read.Err? { return Err(read.error); }
      if read.value.seqNo != next { return Err(Corruption); }
      var raw := read.value.raw;
      JoinedSnoc(records, raw, Forward(files, scratch[..index], next + 1));
      JoinedIs(raw, Forward(files, scratch[..index], next + 1));
      records := records + [raw];
      next := next + 1;
    }
    assert scratch[..index] == [];
    JoinedNothing(records);
    return Ok(records);
  }

  // ------------------------------------------------------------ what it finds

  lemma ThreadLegible(owner: Owner, disk: Disk, past: History, d: Id)
    requires Layout(owner, disk, past) && Somewhere(Live(past.segs)) && SealableAt(Of(Live(past.segs), d), past.safe)
    ensures Legible(disk.files, Of(Live(past.segs), d)) && forall p | p in Of(Live(past.segs), d) :: p.frame.id == d
  {
    hide Live, Of, ReadFrame, BoundariesOk, FilesOk, SegsOk, StableOk;
    forall p | p in Of(Live(past.segs), d)
      ensures ReadFrame(disk.files, p.at) == Ok(p.frame) && p.at != NOWHERE && p.frame.id == d
    {
      OfMembers(Live(past.segs), d, p);
      StableReads(owner, disk.files, past.segs, disk.stable, past.safe, p);
    }
  }

  /** A database opens between seals only: its checkpoint is the manifest's. */
  predicate MayReplay(w: World, d: Id) {
    && MayRetire(w, d) && w.mem.members[d].lsn <= w.mem.durable
    && d in w.disk.ledger.manifests && w.mem.members[d].checkpoint == |w.disk.ledger.manifests[d]|
  }

  /**
   With a member's frames stable, the two-pass replay from its newest frame finds exactly
   the records it was accepted to hold above its checkpoint.
   */
  lemma ReplayFinds(w: World, d: Id)
    requires MayReplay(w, d)
    ensures d in w.past.accepted && d in w.disk.ledger.manifests
    ensures var m := w.mem.members[d];
      && m.checkpoint == |w.disk.ledger.manifests[d]| && m.checkpoint <= m.seqNo == |w.past.accepted[d]|
      && w.disk.ledger.manifests[d] <= w.past.accepted[d]
      && (m.seqNo > m.checkpoint ==>
           Backward(w.disk.files, d, m.latest, m.seqNo, m.checkpoint) ==
               Ok(Positions(Above(Of(Live(w.past.segs), d), m.checkpoint))))
      && Forward(w.disk.files, Positions(Above(Of(Live(w.past.segs), d), m.checkpoint)),
                 m.checkpoint + 1) == Ok(w.past.accepted[d][m.checkpoint..])
      && Raws(Above(Of(Live(w.past.segs), d), m.checkpoint)) == w.past.accepted[d][m.checkpoint..]
  {
    hide Layout, Threads, Accounts, Active, Members, Tails, Live, Of, Backward, Forward, Positions, Above, Raws,
         Legible, Thread, Here,
         DurableSeq, Until, ArchiveAgrees, SealableAt, Carries, Below, Matches;
    MemberReady(w, d);
    var t := Of(Live(w.past.segs), d);
    SealableThread(t, w.past.safe);
    ReplaySomewhere(w);
    ThreadLegible(w.owner, w.disk, w.past, d);
    CarriedEnd(t, w.past.accepted[d], |w.disk.ledger.manifests[d]|, Keep(w.disk.ledger, d), w.past.safe);
    ReplayExact(w.disk.files, d, t, w.past.accepted[d], |w.disk.ledger.manifests[d]|);
  }

  lemma ReplaySomewhere(w: World)
    requires Healthy(w)
    ensures Somewhere(Live(w.past.segs))
  {
    hide Threads, Active, Members, Tails, Live, Somewhere, FilesOk, BoundariesOk, StableOk, SegmentsAgree, Storage,
         Charges, RegistryCharge, SegsOk;
    LiveSomewhere(w.past.segs);
  }

  // ---------------------------------------------------------- what it restores

  function Reopened(w: World, d: Id, records: seq<Raw>): World { w.(mem := w.mem.(tails := w.mem.tails[d := records])) }

  lemma ReopenTails(tails: map<Id, seq<Raw>>, manifests: map<Id, seq<Raw>>, accepted: map<Id, seq<Raw>>, d: Id,
                    records: seq<Raw>)
    requires Tails(tails, manifests, accepted) && d in accepted && d in manifests
    requires manifests[d] + records == accepted[d]
    ensures Tails(tails[d := records], manifests, accepted)
  {
  }

  /** An open database holds its sealed records and the replayed ones: all that was accepted. */
  lemma ReopenKeeps(w: World, d: Id, records: seq<Raw>)
    requires MayReplay(w, d) && d in w.past.accepted && d in w.disk.ledger.manifests
    requires w.disk.ledger.manifests[d] + records == w.past.accepted[d]
    ensures Healthy(Reopened(w, d, records))
  {
    hide Layout, Threads, Accounts, Active, Members, Tails, Live, Here;
    var v := Reopened(w, d, records);
    ActiveSame(w.options, w.owner, w.mem, w.disk.files, w.disk.stable, w.past, v.mem, v.past);
    ReopenTails(w.mem.tails, w.disk.ledger.manifests, w.past.accepted, d, records);
  }
}
