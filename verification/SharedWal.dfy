/**
 The shared log itself: one mutable state under one lock, its directory, and the
 history it stands for.

 Every method is proved against the step functions of `LogWrites`, `LogRoll`, `LogPush`
 and `LogReclaim`. A fault of the device may strike at any write; it poisons the log and
 leaves a directory that recovery can open.
 */
module SharedWals {
  import opened Prelude
  import opened FrameFormat
  import opened FrameRun
  import opened LogLayout
  import opened LogState
  import opened ThreadLaws
  import opened LogWrites
  import opened LogRoll
  import opened LogPush
  import opened LogReclaim
  import opened LogNeeds
  import opened LogSeal
  import opened LogMembers
  import opened LogArchive
  import opened LogCrash
  import opened LogScan
  import opened LogRuns
  import opened LogProgress
  import opened LogAccept
  import opened LogBatch
  import opened LogReplay
  import opened LogReopen
  import opened LogExport
  import opened LogScanLaws
  import opened LogScanSound
  import opened LogOpen
  import opened LogStart
  import opened LogAgain
  import opened Recovery
  import Sequences

  // ------------------------------------------------------------ small facts

  lemma FlushedNothing(w: World)
    requires Healthy(w) && w.mem.buffer == []
    ensures w.disk.files != [] && Flushed(w) == w
  {
    hide Layout, Threads, Accounts, Members, Tails, Content, Fenced;
    Sequences.Neutral(Last(w.disk.files).bytes);
    assert WriteTo(w.disk.files, []) == w.disk.files;
  }

  lemma SyncedNothing(w: World)
    requires Healthy(w) && w.mem.durable == w.mem.lsn
    ensures w.disk.files != [] && w.mem.buffer == [] && Synced(w) == w
  {
    hide Threads, Accounts, Members, Tails, BoundariesOk, SegsOk, Content, Size;
    var s := Last(w.past.segs);
    assert s.frames[..|s.frames|] == s.frames;
    assert Last(w.disk.files).bytes == Content(w.owner, s);
    SizeOfNone(s.frames);
  }

  lemma SizeOfNone(fs: seq<Frame>)
    ensures fs == [] ==> Size(fs) == 0
  {
  }

  lemma ReclaimOne(w: World, k: nat)
    requires Healthy(w) && k < |w.past.segs| == |w.disk.files| == |w.mem.segments|
    ensures Storage(w.past.segs[..k]) <= w.mem.storage && Charges(w.past.segs[..k]) <= w.mem.charged
    ensures Storage(w.past.segs[..k + 1]) == Storage(w.past.segs[..k]) + w.mem.segments[k].length <= w.mem.storage
    ensures Charges(w.past.segs[..k + 1]) ==
        Charges(w.past.segs[..k]) + SEGMENT_CHARGE + ENTRY_CHARGE * |w.mem.segments[k].members| <= w.mem.charged
    ensures Numbers(w.past.segs[..k + 1]) == Numbers(w.past.segs[..k]) + {w.mem.segments[k].number}
  {
    hide Layout, Threads, Active, Members, Tails, Storage, Charges, RegistryCharge, Length, Summary;
    DropAccounts(w.options, w.mem.storage, w.mem.charged, w.mem.segments, w.disk.ledger.registry, w.past.segs,
                 w.past.protections, k);
    DropAccounts(w.options, w.mem.storage, w.mem.charged, w.mem.segments, w.disk.ledger.registry, w.past.segs,
                 w.past.protections, k + 1);
    Sequences.Around(w.past.segs, k);
    AccountSnoc(w.past.segs[..k], w.past.segs[k]);
    assert w.mem.segments[k] == SegmentOf(w.past.segs[k]);
    NumbersSnoc(w.past.segs, k);
  }

  lemma NumbersSnoc(segs: seq<Seg>, k: nat)
    requires k < |segs|
    ensures Numbers(segs[..k + 1]) == Numbers(segs[..k]) + {segs[k].number}
  {
    var a, b := segs[..k], segs[..k + 1];
    forall n | n in Numbers(b) ensures n in Numbers(a) + {segs[k].number} {
      var i :| 0 <= i < |b| && b[i].number == n;
      assert i < k ==> a[i].number == n;
    }
    forall n | n in Numbers(a) ensures n in Numbers(b) {
      var i :| 0 <= i < |a| && a[i].number == n;
      assert b[i].number == n;
    }
    assert b[k].number == segs[k].number;
  }

  lemma SameShape(w: World)
    requires Healthy(w)
    ensures |w.past.segs| == |w.disk.files| == |w.mem.segments| > 0
    ensures w.mem.segment == Last(w.past.segs).number == Last(w.mem.segments).number
    ensures w.mem.storage <= U64_MAX && w.mem.charged <= U64_MAX
  {
    hide Threads, Members, Tails, BoundariesOk, SegsOk, StableOk, Content, Size, Storage, Charges, RegistryCharge,
         Summary, Length;
    assert Last(w.mem.segments) == SegmentOf(Last(w.past.segs));
  }

  class SharedWal {
    const options: Options
    const owner: Owner

    var segment: U64
    var offset: U64
    var lsn: U64
    var durable: U64
    var buffer: seq<Byte>
    var storage: U64
    var charged: U64
    var members: map<Id, Member>
    var segments: seq<Segment>
    var tails: map<Id, seq<Raw>>
    var poison: bool

    var disk: Disk
    ghost var past: History

    ghost function Now(): World
      reads this
    {
      World(options, owner, Memory(segment, offset, lsn, durable, buffer, storage, charged, members, segments, tails),
            disk, past)
    }

    // The state without index charges that were taken ahead of their use.
    ghost function Owing(due: nat): World
      requires due <= charged
      reads this
    {
      World(options, owner,
            Memory(segment, offset, lsn, durable, buffer, storage, charged - due, members, segments, tails), disk, past)
    }

    /** The directory can always be recovered; an open log also agrees with it. */
    ghost predicate Valid()
      reads this
    {
      OnDisk(Now()) && (!poison ==> InMemory(Now()))
    }

    // ---------------------------------------------------------------- writes

    method Flush(ghost due: nat) returns (r: Result<()>, ghost faulted: bool)
      requires !poison && due <= charged && Healthy(Owing(due))
      modifies this`disk, this`buffer, this`poison
      ensures charged == old(charged)
      ensures old(disk.files) != []
      ensures r.Ok? ==> !poison && Owing(due) == Flushed(old(Owing(due))) && Healthy(Owing(due))
      ensures r.Err? ==> r == Err(Poisoned) && poison && OnDisk(Now()) && faulted
      ensures LogsOf(Now()) == old(LogsOf(Now()))
      ensures disk.ledger == old(disk.ledger)
    {
      hide OnDisk, InMemory, LogsOf;
      ghost var w := Owing(due);
      OpenDisk(w, Now());
      FlushKeeps(w);
      FlushSame(w);
      OpenDisk(Flushed(w), Flushed(Now()));
      if buffer == [] {
        FlushedNothing(w);
        return Ok(()), false;
      }
      var fault := *;
      if fault {
        var n :| 0 <= n <= |buffer|;
        HalfFlushOnDisk(w, n);
        HalfSame(w, n);
        disk := disk.(files := WriteTo(disk.files, buffer[..n]));
        poison := true;
        OpenDisk(HalfFlushed(w, n), Now());
        return Err(Poisoned), true;
      }
      disk := disk.(files := WriteTo(disk.files, buffer));
      buffer := [];
      return Ok(()), false;
    }

    method Sync(ghost due: nat) returns (r: Result<()>, ghost faulted: bool)
      requires !poison && due <= charged && Healthy(Owing(due))
      modifies this`disk, this`buffer, this`poison, this`past, this`durable
      ensures charged == old(charged)
      ensures old(disk.files) != []
      ensures r.Ok? ==>
        !poison && Owing(due) == Synced(Flushed(old(Owing(due)))) && Healthy(Owing(due)) && durable == lsn
      ensures r.Ok? ==> Grows(old(LogsOf(Now())), LogsOf(Now()))
      ensures r.Err? ==> r == Err(Poisoned) && poison && OnDisk(Now()) && LogsOf(Now()) == old(LogsOf(Now()))
      ensures r.Err? ==> faulted
      ensures disk.ledger == old(disk.ledger)
      ensures past.accepted == old(past.accepted) && past.protections == old(past.protections)
    {
      hide OnDisk, InMemory, LogsOf, Grows;
      ghost var w := Owing(due);
      OpenDisk(w, Now());
      FlushKeeps(w);
      FlushSame(w);
      if durable == lsn {
        SyncedNothing(w);
        FlushedNothing(w);
        GrowsSelf(LogsOf(Now()));
        return Ok(()), false;
      }
      r, faulted := Flush(due);
      if r.Err? { return; }
      ghost var v := Owing(due);
      OpenDisk(v, Now());
      var fault := *;
      if fault {
        poison := true;
        OpenDisk(v, Now());
        return Err(Poisoned), true;
      }
      SyncKeeps(v);
      SyncedGrows(v);
      disk := disk.(stable := |Last(disk.files).bytes|);
      past := past.(safe := lsn);
      durable := lsn;
      OpenDisk(Synced(v), Now());
      return Ok(()), false;
    }

    // Writes the header of the next segment file and makes it active.
    method CreateSegment(ghost due: nat) returns (r: Result<()>, ghost faulted: bool)
      requires !poison && SEGMENT_CHARGE <= due <= charged && MayRoll(Owing(due))
      requires storage + SEGMENT_HEADER <= options.maxBytes <= U64_MAX && charged <= options.indexBytes
      modifies this`disk, this`past, this`segment, this`offset, this`storage, this`segments
      ensures charged == old(charged) && old(past.segs) != []
      ensures r.Ok? ==>
        !poison && Owing(due - SEGMENT_CHARGE) == Created(old(Owing(due))) && Healthy(Owing(due - SEGMENT_CHARGE))
      ensures r.Err? ==> OnDisk(Now()) && faulted
      ensures LogsOf(Now()) == old(LogsOf(Now()))
      ensures disk.ledger == old(disk.ledger)
      ensures past.accepted == old(past.accepted) && past.protections == old(past.protections)
    {
      hide OnDisk, InMemory, LogsOf, EncodeHeader, Created, HalfCreated, MayRoll, Healthy;
      ghost var w := Owing(due);
      CreateFacts(w);
      OpenDisk(w, Now());
      var number, first := segment + 1, lsn + 1;
      var header := EncodeHeader(owner, number, first);
      HeaderLength(owner, number, first);
      var fault := *;
      if fault {
        var made := *;
        if made {
          var n :| 0 <= n <= SEGMENT_HEADER;
          HalfCreateOnDisk(w, n);
          HalfCreateSame(w, n);
          ghost var v := HalfCreated(w, n);
          HalfCreatedIs(w, n);
          disk := disk.(files := disk.files + [File(number, header[..n])], stable := 0);
          past := past.(segs := past.segs + [Fresh(number, first)]);
          OpenDisk(v, Now());
        }
        return Err(Io), true;
      }
      RollKeeps(w);
      CreateSame(w);
      CreatedIs(w);
      disk := disk.(files := disk.files + [File(number, header)], stable := SEGMENT_HEADER);
      past := past.(segs := past.segs + [Fresh(number, first)]);
      segment, offset := number, SEGMENT_HEADER;
      storage := storage + SEGMENT_HEADER;
      segments := segments + [Segment(number, SEGMENT_HEADER, map[])];
      OpenDisk(Created(w), Now());
      return Ok(()), false;
    }

    /** Starts the next segment; everything accepted before it is durable by then. */
    method Roll(ghost due: nat) returns (r: Result<()>, ghost faulted: bool)
      requires !poison && SEGMENT_CHARGE <= due <= charged && Healthy(Owing(due)) && lsn < U64_MAX
      requires storage + SEGMENT_HEADER <= options.maxBytes && charged <= options.indexBytes
      modifies this`disk, this`buffer, this`poison, this`past, this`durable, this`segment, this`offset, this`storage,
               this`segments
      ensures charged == old(charged) && old(disk.files) != [] && old(past.segs) != []
      ensures r.Ok? ==> !poison && Owing(due - SEGMENT_CHARGE) == Created(Synced(Flushed(old(Owing(due)))))
      ensures r.Ok? ==> Healthy(Owing(due - SEGMENT_CHARGE))
      ensures r.Err? ==> OnDisk(Now()) && past.accepted == old(past.accepted) && (faulted || old(segment) == U64_MAX)
      ensures Grows(old(LogsOf(Now())), LogsOf(Now()))
      ensures disk.ledger == old(disk.ledger)
      ensures past.accepted == old(past.accepted) && past.protections == old(past.protections)
    {
      hide OnDisk, InMemory, LogsOf, Grows, EncodeHeader, Created;
      ghost var before := Now();
      RollBounds(Owing(due));
      GrowsSelf(LogsOf(before));
      r, faulted := Sync(due);
      if r.Err? {
        SameRecords(before, Now());
        return;
      }
      ghost var middle := Now();
      OpenDisk(Owing(due), middle);
      if segment == U64_MAX { return Err(Corruption), false; }
      r, faulted := CreateSegment(due);
      SameRecords(middle, Now());
    }

    // -------------------------------------------------------------- reclaiming

    // Deletes the oldest segment file and its boundary.
    method DropFirst(ghost w: World, ghost k: nat)
      requires !poison && Healthy(w) && k < |w.past.segs| == |w.disk.files| == |w.mem.segments|
      requires Storage(w.past.segs[..k]) <= w.mem.storage && Charges(w.past.segs[..k]) <= w.mem.charged
      requires Now() == Reclaimed(w, k) && segments != []
      modifies this`disk, this`segments, this`storage, this`charged, this`past
      ensures Storage(w.past.segs[..k + 1]) <= w.mem.storage && Charges(w.past.segs[..k + 1]) <= w.mem.charged
      ensures !poison && Now() == Reclaimed(w, k + 1)
      ensures segments == old(segments)[1..] && members == old(members) && segment == old(segment)
      ensures disk.ledger == old(disk.ledger)
      ensures past.accepted == old(past.accepted) && past.protections == old(past.protections)
    {
      hide Healthy, Storage, Charges, Numbers;
      ReclaimOne(w, k);
      var first := segments[0];
      var index := SEGMENT_CHARGE + ENTRY_CHARGE * |first.members|;
      ReclaimRest(w, k, first.number);
      disk := disk.(files := disk.files[1..], boundaries := disk.boundaries - {first.number});
      segments := segments[1..];
      storage := storage - first.length;
      charged := charged - index;
      past := past.(segs := past.segs[1..]);
    }

    /** Reclaims the oldest segments, one file at a time, as far as members allow. */
    method Gc()
      requires !poison && Healthy(Now())
      modifies this`disk, this`segments, this`storage, this`charged, this`past
      ensures !poison && Now() == Swept(old(Now())) && Healthy(Now()) && Pruned(old(Now()), Now()) && Tight(Now())
      ensures Grows(old(LogsOf(Now())), LogsOf(Now()))
      ensures disk.ledger == old(disk.ledger)
      ensures past.accepted == old(past.accepted) && past.protections == old(past.protections)
    {
      hide Healthy, LogsOf, Grows, Storage, Charges, Numbers, Reclaimable, Reclaimed, Pruned, Tight;
      ghost var w := Now();
      ghost var k := 0;
      SweptKeeps(w);
      SweptNeeds(w);
      PrunedTight(w, Swept(w));
      SameShape(w);
      ReclaimNone(w);
      while segments != [] && segments[0].number != segment && Reclaimable(members, segments[0])
        invariant k <= |w.past.segs| == |w.disk.files| == |w.mem.segments|
        invariant Storage(w.past.segs[..k]) <= w.mem.storage && Charges(w.past.segs[..k]) <= w.mem.charged
        invariant !poison && Now() == Reclaimed(w, k) && segments == w.mem.segments[k..]
        invariant ReclaimCount(w.mem.members, w.mem.segments, w.mem.segment) ==
            k + ReclaimCount(members, segments, segment)
        invariant disk.ledger == w.disk.ledger && past.accepted == w.past.accepted
        invariant past.protections == w.past.protections
        decreases |segments|
      {
        DropFirst(w, k);
        assert w.mem.segments[k..][1..] == w.mem.segments[k + 1..];
        k := k + 1;
      }
      ReclaimGrows(w, k);
    }

    // --------------------------------------------------------------- appending

    // Puts an admissible frame into the buffer and its member's books.
    method Push(frame: Frame, ghost due: nat)
      requires !poison && due <= charged && MayPush(Owing(due), frame)
      requires Owing(due).mem.charged + EntryGrowth(Owing(due).mem.segments, frame.id) == charged
      modifies this
      ensures !poison && old(past.segs) != [] && frame.id in old(past.accepted) && old(segments) != []
      ensures frame.id in old(members)
      ensures Now() == Pushed(old(Owing(due)), frame) && Healthy(Now())
      ensures Grows(old(LogsOf(Now())), LogsOf(Now()))
      ensures Undisturbed(old(Now()), Now(), frame.id)
    {
      hide OnDisk, InMemory, LogsOf, Grows, EncodeFrame, MayPush, EntryGrowth, Charged, Noted, Longer, ExtendedLast,
           LegalFrame, FrameLength, Pushed, Here, Put, Undisturbed;
      ghost var w := Owing(due);
      PushStep(w, frame);
      PushedKept(w, frame);
      UndisturbedOwing(w, Now(), Pushed(w, frame), frame.id);
      OpenDisk(w, Now());
      var bytes := EncodeFrame(frame);
      var pointer := Pointer(segment, offset);
      buffer := buffer + bytes;
      offset := offset + |bytes|;
      storage := storage + |bytes|;
      lsn := frame.lsn;
      segments := Charged(segments, frame);
      members := members[frame.id := Noted(members[frame.id], Placed(frame, pointer), durable)];
      tails := Longer(tails, frame.id, frame.raw);
      past := past.(segs := ExtendedLast(past.segs, frame),
                    accepted := past.accepted[frame.id := past.accepted[frame.id] + [frame.raw]]);
    }

    // Rolls to a new segment and empties the buffer as the next frame needs it.
    method MakeRoom(length: nat, rolls: bool, ghost due: nat) returns (r: Result<()>, ghost faulted: bool)
      requires !poison && due <= charged && Healthy(Owing(due)) && lsn < U64_MAX && charged <= options.indexBytes
      requires rolls == Rolls(Owing(due), length)
      requires (rolls ==> SEGMENT_CHARGE <= due && storage + SEGMENT_HEADER <= options.maxBytes)
      modifies this`disk, this`buffer, this`poison, this`past, this`durable, this`segment, this`offset, this`storage,
               this`segments
      ensures charged == old(charged)
      ensures r.Ok? ==> !poison && Owing(Left(due, rolls)) == Spilled(Rolled(old(Owing(due)), length), length)
      ensures r.Ok? ==> Healthy(Owing(Left(due, rolls)))
      ensures r.Err? ==> poison && OnDisk(Now()) && past.accepted == old(past.accepted)
      ensures r.Err? ==> (faulted || (rolls && old(segment) == U64_MAX))
      ensures Grows(old(LogsOf(Now())), LogsOf(Now()))
      ensures disk.ledger == old(disk.ledger)
      ensures past.accepted == old(past.accepted) && past.protections == old(past.protections)
    {
      hide OnDisk, InMemory, LogsOf, Grows, Created, Flushed, Synced;
      ghost var w := Owing(due);
      GrowsSelf(LogsOf(Now()));
      RolledFields(w, length);
      faulted := false;
      if rolls {
        r, faulted := Roll(due);
        if r.Err? {
          poison := true;
          return;
        }
      }
      ghost var left := Left(due, rolls);
      assert Owing(left) == Rolled(w, length);
      ghost var middle := Now();
      if |buffer| + length > options.bufferBytes {
        r, faulted := Flush(left);
        SameRecords(middle, Now());
        return;
      }
      return Ok(()), false;
    }

    // Appends a frame for which storage is at hand: charge, make room, push.
    method AppendReserved(frame: Frame) returns (r: Result<()>, ghost faulted: bool)
      requires !poison && Healthy(Now()) && Continuing(Now(), frame) && lsn < U64_MAX
      requires FrameLength(frame) <= options.bufferBytes
      requires storage + GrowthOf(Now(), FrameLength(frame)) <= options.maxBytes
      modifies this
      ensures r.Ok? ==> Spacious(old(Now()), frame) && !poison && Healthy(Now())
      ensures r.Ok? ==> var v := Spilled(Rolled(old(Now()), FrameLength(frame)), FrameLength(frame));
        && v.past.segs != [] && v.mem.segments != [] && frame.id in v.mem.members && frame.id in v.past.accepted
        && Now() == Pushed(v, frame)
      ensures r.Err? && !poison ==> !Spacious(old(Now()), frame) && Now() == old(Now())
      ensures poison ==> r.Err? && Spacious(old(Now()), frame) && OnDisk(Now()) && past.accepted == old(past.accepted)
      ensures poison ==> faulted || (Rolls(old(Now()), FrameLength(frame)) && old(segment) == U64_MAX)
      ensures Grows(old(LogsOf(Now())), LogsOf(Now()))
      ensures Undisturbed(old(Now()), Now(), frame.id)
    {
      hide OnDisk, InMemory, LogsOf, Grows, Continuing, Rolled, Spilled, Pushed, MayPush, EntryGrowth, FrameLength;
      ghost var w := Now();
      var length := FrameLength(frame);
      GrowsSelf(LogsOf(w));
      SameShape(w);
      var rolls := offset + length > options.segmentBytes;
      var index := (if rolls then SEGMENT_CHARGE else 0)
                   + (if rolls || frame.id !in Last(segments).members then ENTRY_CHARGE else 0);
      assert index == IndexGrowthOf(w, frame.id, length);
      if charged + index > options.indexBytes { return Err(Limit), false; }
      IndexFits(w);
      charged := charged + index;
      assert Owing(index) == w;
      OpenDisk(w, Now());
      r, faulted := MakeRoom(length, rolls, index);
      if r.Err? { return; }
      ghost var middle := Now();
      ghost var v := Owing(Left(index, rolls));
      ReservedMayPush(w, v, frame);
      Push(frame, Left(index, rolls));
      SpilledSame(w, v, length);
      OpenDisk(v, middle);
      GrowsChain(w, middle, Now());
    }

    /**
     Appends one record of an open member. It is refused exactly when `Accepts` says so,
     and then nothing but reclaimable segments has changed.
     */
    method AppendLocked(id: Id, seqNo: U64, raw: Raw) returns (r: Result<()>, ghost faulted: bool)
      requires !poison && Healthy(Now())
      requires id in members ==> !members[id].retired
      requires 0 < seqNo && InspectRecord(raw) == Ok(seqNo)
      modifies this
      ensures OnDisk(Now()) && (!poison ==> Healthy(Now()))
      ensures r.Ok? ==> !poison && Accepts(old(Now()), id, seqNo, raw) && Now() == Appended(old(Now()), id, seqNo, raw)
      ensures r.Err? && !poison ==>
        !Accepts(old(Now()), id, seqNo, raw) && (Now() == old(Now()) || Now() == Swept(old(Now())))
      ensures poison ==> r.Err? && Accepts(old(Now()), id, seqNo, raw) && past.accepted == old(past.accepted)
      ensures poison ==> faulted || (Rolls(old(Now()), FRAME_HEADER + |raw|) && old(segment) == U64_MAX)
      ensures Grows(old(LogsOf(Now())), LogsOf(Now()))
      ensures Undisturbed(old(Now()), Now(), id)
    {
      hide OnDisk, InMemory, LogsOf, Grows, Continuing, Swept, PinnedBytes, Rolled, Spilled, Pushed, InspectRecord;
      ghost var w := Now();
      GrowsSelf(LogsOf(w));
      faulted := false;
      if id !in members { return Err(Corruption), false; }
      var member := members[id];
      if seqNo != member.seqNo + 1 { return Err(Corruption), false; }
      if member.archive.Some? {
        var p := member.archive.value;
        if PinnedBytes(p) + |raw| + FRAME_HEADER > p.maxBytes { return Err(Limit), false; }
        if p.latest.offset + |raw| > U64_MAX { return Err(Corruption), false; }
      }
      if lsn == U64_MAX { return Err(Corruption), false; }
      var frame := Frame(id, lsn + 1, seqNo, member.latest, raw);
      var length := FRAME_HEADER + |raw|;
      if length > options.bufferBytes { return Err(Limit), false; }
      if SEGMENT_HEADER + length > options.segmentBytes { return Err(Limit), false; }
      FrameContinues(w, id, seqNo, raw);
      var growth := length + (if offset + length > options.segmentBytes then SEGMENT_HEADER else 0);
      TrimmedContinues(w, growth, frame);
      HealthyIs(w);
      if storage + growth > options.maxBytes {
        Gc();
        HealthyIs(Now());
        if storage + growth > options.maxBytes { return Err(Limit), false; }
      }
      ghost var v := Now();
      assert v == Trimmed(w, growth);
      SweptSame(w);
      HealthyIs(v);
      r, faulted := AppendReserved(frame);
      HealthyIs(Now());
      GrowsChain(w, v, Now());
    }

    method AppendRaw(id: Id, seqNo: U64, raw: Raw) returns (r: Result<()>, ghost faulted: bool)
      requires Valid()
      requires id in members ==> !members[id].retired
      requires 0 < seqNo && InspectRecord(raw) == Ok(seqNo)
      modifies this
      ensures Valid()
      ensures old(poison) ==> r == Err(Poisoned) && Now() == old(Now()) && poison
      ensures r.Ok? ==> !poison && Accepts(old(Now()), id, seqNo, raw) && Now() == Appended(old(Now()), id, seqNo, raw)
      ensures r.Ok? ==>
        id in old(past.accepted) && past.accepted == old(past.accepted)[id := old(past.accepted)[id] + [raw]]
      ensures r.Err? ==> past.accepted == old(past.accepted)
      ensures r.Err? && !poison ==> !Accepts(old(Now()), id, seqNo, raw)
      ensures Grows(old(LogsOf(Now())), LogsOf(Now()))
      ensures Undisturbed(old(Now()), Now(), id)
    {
      hide OnDisk, InMemory, LogsOf, Grows, Accepts, Appended, Swept, InspectRecord;
      ghost var w := Now();
      GrowsSelf(LogsOf(w));
      if poison { return Err(Poisoned), false; }
      SweptSame(w);
      if id in members { OpenRecords(w, id); }
      r, faulted := AppendLocked(id, seqNo, raw);
      if r.Ok? {
        AcceptsMember(w, id, seqNo, raw);
        AppendedRecords(w, id, seqNo, raw);
      }
    }

    // ----------------------------------------------------------------- batches

    /** Simulates the batch; the sums it keeps are exact, and over budget well before they could overflow. */
    method Preflight(id: Id, first: U64, raws: seq<Raw>) returns (r: Result<()>)
      requires !poison && Healthy(Now())
      modifies this`disk, this`segments, this`storage, this`charged, this`past
      ensures !poison && Healthy(Now())
      ensures r.Ok? ==>
        BatchFits(old(Now()), id, first, raws) && Now() == Trimmed(old(Now()), BatchPlan(old(Now()), id, raws).growth)
      ensures r.Err? ==> !BatchFits(old(Now()), id, first, raws) && (Now() == old(Now()) || Now() == Swept(old(Now())))
      ensures Grows(old(LogsOf(Now())), LogsOf(Now()))
      ensures Undisturbed(old(Now()), Now(), id)
    {
      hide Healthy, LogsOf, Grows, Swept, PinnedBytes, PlanOf;
      ghost var w := Now();
      GrowsSelf(LogsOf(w));
      if id !in members { return Err(Corruption); }
      var member := members[id];
      if first != member.seqNo + 1 { return Err(Corruption); }
      if first + |raws| > U64_MAX || lsn + |raws| > U64_MAX { return Err(Corruption); }
      SameShape(w);
      var plan := Plan(offset, id in Last(segments).members, 0, 0, 0, 0);
      assert plan == StartPlan(w, id);
      PlanStart(options.segmentBytes, plan, raws);
      for i := 0 to |raws|
        invariant Now() == w && !poison
        invariant plan == PlanOf(options.segmentBytes, StartPlan(w, id), raws[..i])
        invariant forall j | 0 <= j < i :: FrameFits(options, raws[j])
      {
        var length := FRAME_HEADER + |raws[i]|;
        if length > options.bufferBytes { return Err(Limit); }
        if length + SEGMENT_HEADER > options.segmentBytes { return Err(Limit); }
        PlanSnoc(options.segmentBytes, StartPlan(w, id), raws, i);
        var rolls := plan.offset + length > options.segmentBytes;
        var offset := if rolls then SEGMENT_HEADER else plan.offset;
        var index := plan.index + (if rolls then SEGMENT_CHARGE else 0);
        var growth := plan.growth + (if rolls then SEGMENT_HEADER else 0);
        if rolls || !plan.represented { index := index + ENTRY_CHARGE; }
        plan := Plan(offset + length, true, growth + length, index, plan.pinned + length,
                     plan.rolls + (if rolls then 1 else 0));
      }
      assert raws[..|raws|] == raws;
      if member.archive.Some? && PinnedBytes(member.archive.value) + plan.pinned > member.archive.value.maxBytes {
        return Err(Limit);
      }
      if storage + plan.growth > options.maxBytes { Gc(); }
      if storage + plan.growth > options.maxBytes { return Err(Limit); }
      if charged + plan.index > options.indexBytes { return Err(Limit); }
      return Ok(());
    }

    /**
     Appends a batch, all of it or nothing: a batch that does not fit changes nothing but
     reclaimable segments, and one that fits can only fail by a fault of the device or by
     one of the two counters in `Representable`. Then the log is poisoned, with the first few
     records of the batch behind the member's others and every other member as it was.
     */
    method AppendBatchRaw(id: Id, first: U64, raws: seq<Raw>) returns (r: Result<()>, ghost faulted: bool)
      requires Valid()
      requires id in members ==> !members[id].retired
      requires 0 < first && forall i | 0 <= i < |raws| :: InspectRecord(raws[i]) == Ok(first + i)
      modifies this
      ensures Valid()
      ensures old(poison) ==> r == Err(Poisoned) && Now() == old(Now()) && poison
      ensures r.Ok? ==> !poison && BatchFits(old(Now()), id, first, raws) && Representable(old(Now()), id, raws)
      ensures r.Ok? ==>
        id in old(past.accepted) && past.accepted == old(past.accepted)[id := old(past.accepted)[id] + raws]
      ensures r.Err? && !poison ==>
        !BatchFits(old(Now()), id, first, raws) && (Now() == old(Now()) || Now() == Swept(old(Now())))
      ensures poison && !old(poison) ==> r == Err(Poisoned) && BatchFits(old(Now()), id, first, raws)
      ensures poison && !old(poison) ==> faulted || !Representable(old(Now()), id, raws)
      ensures poison && !old(poison) ==>
        exists k: nat :: k < |raws| && Took(old(past.accepted), past.accepted, id, raws, k)
      ensures Grows(old(LogsOf(Now())), LogsOf(Now()))
      ensures Undisturbed(old(Now()), Now(), id)
    {
      hide OnDisk, InMemory, LogsOf, Grows, BatchFits, Representable, Swept, Trimmed, BatchPlan, RoomFor, Midway,
           Accepts, Appended, Rolls, Took, Undisturbed;
      ghost var begin := Now();
      GrowsSelf(LogsOf(begin));
      UndisturbedSelf(begin, id);
      faulted := false;
      if poison { return Err(Poisoned), false; }
      r := Preflight(id, first, raws);
      if r.Err? { return; }
      ghost var w := Now();
      BatchReady(begin, id, first, raws);
      GrowsSelf(LogsOf(w));
      MidwayStart(w, id, first, raws);
      MidwayTook(w, w, id, first, raws, 0);
      for i := 0 to |raws|
        invariant !poison && Healthy(Now()) && Midway(w, Now(), id, first, raws, i) && r.Ok?
        invariant id in members && !members[id].retired
        invariant Grows(LogsOf(w), LogsOf(Now())) && Took(w.past.accepted, past.accepted, id, raws, i)
        invariant Undisturbed(begin, Now(), id)
      {
        ghost var before := Now();
        r, faulted := AppendNext(w, id, first, raws, i);
        UndisturbedTrans(begin, before, Now(), id);
        if r.Err? {
          GrowsChain(begin, w, Now());
          return Err(Poisoned), faulted;
        }
      }
      MidwayEnds(w, Now(), id, first, raws);
      GrowsChain(begin, w, Now());
    }

    // One record of a batch that passed its preflight; failing to append it poisons the log.
    method AppendNext(ghost w: World, id: Id, first: U64, raws: seq<Raw>, i: nat)
      returns (r: Result<()>, ghost faulted: bool)
      requires !poison && Healthy(Now()) && Healthy(w) && i < |raws| && Midway(w, Now(), id, first, raws, i)
      requires RoomFor(w, id, first, raws)
      requires 0 < first && first + |raws| <= U64_MAX && InspectRecord(raws[i]) == Ok(first + i)
      requires Grows(LogsOf(w), LogsOf(Now())) && Took(w.past.accepted, past.accepted, id, raws, i)
      modifies this
      ensures OnDisk(Now())
      ensures r.Ok? ==>
        !poison && Healthy(Now()) && Midway(w, Now(), id, first, raws, i + 1) && id in members && !members[id].retired
      ensures r.Err? ==> poison && (faulted || !Representable(w, id, raws))
      ensures Grows(LogsOf(w), LogsOf(Now()))
      ensures Took(w.past.accepted, past.accepted, id, raws, if r.Ok? then i + 1 else i)
      ensures Undisturbed(old(Now()), Now(), id)
    {
      hide OnDisk, InMemory, LogsOf, Grows, RoomFor, Midway, Accepts, Appended, Rolls, Swept, Representable,
           InspectRecord, Took;
      ghost var v := Now();
      MidwayMember(w, v, id, first, raws, i);
      MidwayAccepts(w, v, id, first, raws, i);
      SweptSame(v);
      r, faulted := AppendLocked(id, first + i, raws[i]);
      if r.Err? {
        MidwayFails(w, v, id, first, raws, i, faulted);
        GrowsChain(w, v, Now());
        ghost var stopped := Now();
        poison := true;
        OpenDisk(stopped, Now());
        return;
      }
      MidwayStep(w, v, id, first, raws, i);
      MidwayMember(w, Now(), id, first, raws, i + 1);
      MidwayTook(w, Now(), id, first, raws, i + 1);
      AppendedRecords(v, id, first + i, raws[i]);
      GrowsChain(w, v, Now());
    }

    // ----------------------------------------------------------------- members

    // Makes everything a member appended durable.
    method SyncMember(id: Id) returns (r: Result<()>)
      requires !poison && Healthy(Now()) && id in members && !members[id].retired
      modifies this`disk, this`buffer, this`poison, this`past, this`durable
      ensures OnDisk(Now()) && past.accepted == old(past.accepted)
      ensures r.Ok? ==>
        !poison && Healthy(Now()) && members == old(members) && tails == old(tails) && members[id].lsn <= durable
      ensures r.Ok? ==> disk.ledger == old(disk.ledger) && charged == old(charged)
      ensures r.Err? ==> poison && r == Err(Poisoned)
      ensures Grows(old(LogsOf(Now())), LogsOf(Now()))
      ensures disk.ledger == old(disk.ledger)
      ensures past.accepted == old(past.accepted) && past.protections == old(past.protections)
    {
      hide OnDisk, InMemory, LogsOf, Grows;
      ghost var w := Now();
      GrowsSelf(LogsOf(w));
      if members[id].lsn <= durable { return Ok(()); }
      assert Owing(0) == w;
      MemberNotAhead(w, id);
      ghost var faulted;
      r, faulted := Sync(0);
      if r.Ok? {
        SyncedBooks(w);
        assert Now() == Owing(0);
      } else {
        SameRecords(w, Now());
      }
    }

    /** Syncs and reports: everything the member was accepted to hold is durable. */
    method MemberSync(id: Id) returns (r: Result<(nat, Pointer)>)
      requires Valid()
      requires id in members ==> !members[id].retired
      modifies this`disk, this`buffer, this`poison, this`past, this`durable, this`members
      ensures Valid() && past.accepted == old(past.accepted)
      ensures old(poison) ==> poison
      ensures r.Ok? ==> !poison && id in past.accepted && id in disk.ledger.manifests
      ensures r.Ok? ==> r.value.0 == |past.accepted[id]| == DurableOf(Now(), id)
      ensures r.Ok? && FramesOf(Now(), id) != [] ==> r.value.1 == Last(FramesOf(Now(), id)).at
      ensures r.Err? ==> old(poison) || id !in old(members) || poison
      ensures Grows(old(LogsOf(Now())), LogsOf(Now()))
      ensures Undisturbed(old(Now()), Now(), id)
    {
      hide OnDisk, InMemory, LogsOf, Grows, DurableOf, FramesOf;
      ghost var w := Now();
      GrowsSelf(LogsOf(w));
      if poison { return Err(Poisoned); }
      if id !in members { return Err(Corruption); }
      var synced := SyncMember(id);
      if synced.Err? { return Err(synced.error); }
      ghost var v := Now();
      NotingKeeps(v, id);
      NotingSame(v, id);
      var member := members[id];
      members := members[id := member.(durableSeq := member.seqNo, durablePointer := member.latest)];
      assert Now() == DurableNoted(v, id);
      MemberDurable(Now(), id);
      return Ok((member.seqNo, member.latest));
    }

    /** The reported position is exact although it is refreshed lazily; a poisoned log reports nothing. */
    method DurablePosition(id: Id) returns (seqNo: nat, pointer: Pointer)
      requires Valid()
      requires id in members ==> !members[id].retired
      ensures !poison && id in members ==> id in disk.ledger.manifests && seqNo == DurableOf(Now(), id)
      ensures !poison && id in members && FramesOf(Now(), id) != [] ==> pointer == Last(FramesOf(Now(), id)).at
      ensures poison || id !in members ==> (seqNo, pointer) == (0, NOWHERE)
    {
      hide OnDisk, InMemory, DurableOf, FramesOf;
      if poison || id !in members { return 0, NOWHERE; }
      MemberReported(Now(), id);
      var member := members[id];
      if member.lsn <= durable { return member.seqNo, member.latest; }
      return member.durableSeq, member.durablePointer;
    }

    /**
     The members that keep the oldest segment, up to a limit of no more than all databases; a
     poisoned log answers nothing.
     */
    method MaintenanceBlockers(limit: nat, maxDatabases: nat) returns (r: Result<seq<Id>>)
      ensures r.Ok? <==> !poison && limit <= maxDatabases
      ensures r.Err? ==> r.error == if poison then Poisoned else Invalid
      ensures r.Ok? ==> |r.value| <= limit
      ensures r.Ok? ==> forall i, j | 0 <= i < j < |r.value| :: r.value[i] != r.value[j]
      ensures r.Ok? ==> forall id | id in r.value :: id in Blockers(Now())
      ensures r.Ok? && |r.value| < limit ==> forall id | id in Blockers(Now()) :: id in r.value
      ensures r.Ok? && Valid() ==> forall id | id in r.value :: Blocks(Now(), id)
      ensures r.Ok? && Valid() && |r.value| < limit ==> forall id | Blocks(Now(), id) :: id in r.value
    {
      hide OnDisk, InMemory, Blocks, Releasable;
      if poison { return Err(Poisoned); }
      if limit > maxDatabases { return Err(Invalid); }
      var output := ListBlockers(limit);
      if Valid() {
        HealthyIs(Now());
        forall id ensures Blocks(Now(), id) <==> id in Blockers(Now()) { BlockersAre(Now(), id); }
      }
      return Ok(output);
    }

    method ListBlockers(limit: nat) returns (output: seq<Id>)
      ensures |output| <= limit
      ensures forall i, j | 0 <= i < j < |output| :: output[i] != output[j]
      ensures forall id | id in output :: id in Blockers(Now())
      ensures |output| < limit ==> forall id | id in Blockers(Now()) :: id in output
    {
      output := [];
      if segments == [] || segments[0].number == segment { return; }
      var oldest := segments[0];
      var todo := oldest.members.Keys;
      while todo != {}
        invariant todo <= oldest.members.Keys && |output| <= limit
        invariant forall i, j | 0 <= i < j < |output| :: output[i] != output[j]
        invariant forall id | id in output :: id in Blockers(Now()) && id !in todo
        invariant forall id | id in Blockers(Now()) :: id in output || id in todo
        decreases |todo|
      {
        if |output| == limit { return; }
        var id :| id in todo;
        todo := todo - {id};
        if id !in members || !Releasable(members[id], oldest.members[id]) { output := output + [id]; }
      }
    }

    /** Opens a member's database: its sealed records and the replayed ones are all it was accepted to hold. */
    method Recover(id: Id) returns (r: Result<nat>)
      requires Valid()
      requires id in members ==> !members[id].retired
      modifies this`disk, this`buffer, this`poison, this`past, this`durable, this`tails
      ensures Valid() && past.accepted == old(past.accepted)
      ensures old(poison) ==> poison
      ensures r.Ok? ==> !poison && id in tails && id in past.accepted && id in disk.ledger.manifests
      ensures r.Ok? ==> disk.ledger.manifests[id] + tails[id] == past.accepted[id] && r.value == |tails[id]|
      ensures r.Err? && !poison ==> id !in old(members) || CheckpointLags(old(Now()), id)
      ensures Grows(old(LogsOf(Now())), LogsOf(Now()))
      ensures OthersKept(old(Now()), Now(), id)
      ensures disk.ledger == old(disk.ledger) && past.protections == old(past.protections)
    {
      hide OnDisk, InMemory, LogsOf, Grows, Backward, Forward, Positions, Above, Of, Live, Raws;
      ghost var w := Now();
      GrowsSelf(LogsOf(w));
      if poison { return Err(Poisoned); }
      if id !in members { return Err(Corruption); }
      var synced := SyncMember(id);
      if synced.Err? { return Err(synced.error); }
      ghost var v := Now();
      var member := members[id];
      RegisteredMember(v, id);
      if |disk.ledger.manifests[id]| != member.checkpoint { return Err(Corruption); }
      ReplayFinds(v, id);
      var records: seq<Raw> := [];
      if member.seqNo > member.checkpoint {
        // Neither pass can fail: `ReplayFinds`.
        var scratch := WalkBack(disk.files, id, member.latest, member.seqNo, member.checkpoint);
        var replayed := ReadForward(disk.files, scratch.value, member.checkpoint + 1);
        records := replayed.value;
      }
      SuffixOf(disk.ledger.manifests[id], past.accepted[id], records);
      ReopenKeeps(v, id, records);
      ReopenedSame(v, id, records);
      tails := tails[id := records];
      assert Now() == Reopened(v, id, records);
      return Ok(|records|);
    }

    // ----------------------------------------------------------------- sealing

    /**
     The second step of sealing, outside the lock: publishes the manifest. A fault may leave
     the old one or the new one, and poisons the log.
     */
    method PublishManifest(id: Id) returns (r: Result<()>)
      requires !poison && MaySeal(Now(), id)
      modifies this`disk, this`poison, this`tails
      ensures id in old(past.accepted)
      ensures r.Ok? ==> !poison && Now() == Published(old(Now()), id) && Healthy(Now())
      ensures r.Err? ==> poison && OnDisk(Now()) && past.accepted == old(past.accepted)
      ensures LogsOf(Now()) == old(LogsOf(Now()))
      ensures OthersKept(old(Now()), Now(), id) && StaysOpen(old(Now()), Now(), id)
      ensures Reseals(old(disk.ledger), disk.ledger, id, old(past.accepted))
    {
      hide OnDisk, InMemory, LogsOf, MaySeal, Healthy;
      ghost var w := Now();
      SealReady(w, id);
      PublishKeeps(w, id);
      PublishSame(w, id);
      PublishOnDisk(w, id);
      SealableFacts(w, id);
      OpenDisk(w, w);
      var published := Publish(disk.ledger, id, disk.ledger.manifests[id] + tails[id]);
      var fault := *;
      if fault {
        var renamed := *;
        if renamed {
          disk := disk.(ledger := published);
          PublishedLogs(w, Now(), id);
        }
        ghost var torn := Now();
        poison := true;
        OpenDisk(torn, Now());
        return Err(Io);
      }
      disk := disk.(ledger := published);
      tails := tails[id := []];
      assert Now() == Published(w, id);
      return Ok(());
    }

    /** The last step of sealing: the checkpoint follows the manifest, and old segments may go. */
    method Checkpoint(id: Id) returns (r: Result<()>)
      requires Valid()
      requires !poison ==> id in members && !members[id].retired && id in tails && tails[id] == []
      modifies this`disk, this`segments, this`storage, this`charged, this`past, this`members
      ensures Valid() && past.accepted == old(past.accepted) && poison == old(poison)
      ensures r.Ok? <==> !poison
      ensures r.Ok? ==> id in members && members[id].checkpoint == members[id].seqNo && Tight(Now())
      ensures r.Ok? ==> disk.ledger == old(disk.ledger) && tails == old(tails)
      ensures Grows(old(LogsOf(Now())), LogsOf(Now()))
      ensures OthersKept(old(Now()), Now(), id)
      ensures disk.ledger == old(disk.ledger)
      ensures past.protections == old(past.protections)
    {
      hide OnDisk, InMemory, LogsOf, Grows, Swept, Healthy, Pruned, Tight;
      ghost var w := Now();
      GrowsSelf(LogsOf(w));
      if poison { return Err(Poisoned); }
      HealthyIs(w);
      MayCheckpointNow(w, id);
      CheckpointKeeps(w, id);
      CheckpointSame(w, id);
      var member := members[id];
      members := members[id := member.(checkpoint := member.seqNo)];
      ghost var x := Now();
      assert x == Checkpointed(w, id);
      HealthyIs(x);
      SweptFieldsOf(x);
      Gc();
      HealthyIs(Now());
      return Ok(());
    }

    /** Sync, publish, checkpoint, reclaim: the whole tail becomes sealed, or nothing changes for the member. */
    method Seal(id: Id) returns (r: Result<nat>)
      requires Valid()
      requires !poison ==> id in members && !members[id].retired && id in tails
      modifies this
      ensures Valid() && past.accepted == old(past.accepted)
      ensures r.Ok? ==> !poison && id in past.accepted && id in tails && tails[id] == [] && id in disk.ledger.manifests
      ensures r.Ok? ==> disk.ledger.manifests[id] == past.accepted[id] && r.value == |TailOf(old(tails), id)|
      ensures r.Ok? && r.value > 0 ==>
        id in members && members[id].checkpoint == members[id].seqNo && Tight(Now())
      ensures r.Err? ==> poison
      ensures Grows(old(LogsOf(Now())), LogsOf(Now()))
      ensures OthersKept(old(Now()), Now(), id)
      ensures Reseals(old(disk.ledger), disk.ledger, id, old(past.accepted))
      ensures past.protections == old(past.protections) && StaysOpen(old(Now()), Now(), id)
    {
      hide OnDisk, InMemory, LogsOf, Grows, MaySeal, Swept, Healthy, Tight;
      ghost var w := Now();
      GrowsSelf(LogsOf(w));
      if poison { return Err(Poisoned); }
      HealthyIs(w);
      SealedAll(w, id);
      if tails[id] == [] { return Ok(0); }
      var count := |tails[id]|;
      var synced := SyncMember(id);
      if synced.Err? { return Err(synced.error); }
      ghost var v := Now();
      MaySealNow(v, id);
      var published := PublishManifest(id);
      HealthyIs(Now());
      GrewSame(w, v, Now());
      if published.Err? { return Err(published.error); }
      ghost var x := Now();
      var done := Checkpoint(id);
      GrowsChain(w, x, Now());
      return Ok(count);
    }

    // -------------------------------------------------- registration, archives

    /** Closes a database: its tail is forgotten, and nothing that was promised changes. */
    method Close(id: Id)
      requires Valid()
      modifies this`tails
      ensures Valid() && tails == old(tails) - {id} && LogsOf(Now()) == old(LogsOf(Now()))
    {
      hide LogsOf, Layout, Accounts, Members, Threads, Live, RegistryOk, AllRegistered, Continuing;
      ghost var w := Now();
      tails := tails - {id};
      assert Now() == w.(mem := w.mem.(tails := w.mem.tails - {id}));
      SameLogs(w, Now());
    }

    /** Retires a member whose database is closed; every other member keeps what it held. */
    method Discard(id: Id) returns (r: Result<()>)
      requires Valid() && id !in tails
      modifies this
      ensures Valid()
      ensures old(poison) ==> poison
      ensures r.Ok? ==> !poison && (id in members ==> members[id].retired)
      ensures forall d | d in old(past.accepted) && d != id ::
        d in past.accepted && past.accepted[d] == old(past.accepted)[d]
      ensures r.Err? ==> poison
      ensures Retires(old(LogsOf(Now())), LogsOf(Now()), id)
      ensures OthersKept(old(Now()), Now(), id)
      ensures past.accepted in {old(past.accepted), old(past.accepted) - {id}}
      ensures Dismisses(old(disk.ledger), disk.ledger, id, old(past.accepted))
      ensures past.protections == old(past.protections)
      ensures r.Ok? && id in old(members) && !old(members)[id].retired ==> Tight(Now())
      ensures StaysOpen(old(Now()), Now(), id)
    {
      hide OnDisk, InMemory, LogsOf, Grows, Retires, Swept, Healthy, Tight;
      ghost var w := Now();
      GrowsSelf(LogsOf(w));
      GrowsRetires(LogsOf(w), LogsOf(w), id);
      if poison { return Err(Poisoned); }
      if id !in members || members[id].retired { return Ok(()); }
      HealthyIs(w);
      MayRetireNow(w, id);
      r := Drop(id);
      HealthyIs(Now());
      OthersRecords(w, Now(), id);
    }

    // Publishes the retirement of a member and takes it out of the books.
    method Drop(id: Id) returns (r: Result<()>)
      requires !poison && MayRetire(Now(), id) && id !in tails
      modifies this
      ensures OnDisk(Now()) && (r.Ok? <==> !poison) && (r.Ok? ==> Healthy(Now()))
      ensures r.Ok? ==> id in members && members[id].retired
      ensures Retires(old(LogsOf(Now())), LogsOf(Now()), id) && OthersKept(old(Now()), Now(), id)
      ensures past.accepted in {old(past.accepted), old(past.accepted) - {id}}
      ensures Dismisses(old(disk.ledger), disk.ledger, id, old(past.accepted))
      ensures past.protections == old(past.protections)
      ensures id !in tails && (r.Ok? ==> Tight(Now()))
    {
      hide OnDisk, InMemory, LogsOf, Grows, Retires, Swept, Healthy, MayRetire, Pruned, Tight;
      ghost var w := Now();
      GrowsSelf(LogsOf(w));
      GrowsRetires(LogsOf(w), LogsOf(w), id);
      RetireReady(w, id);
      RetireKeeps(w, id);
      RetireOnDisk(w, id);
      RetireOne(w, id);
      RetiredKept(w, id);
      var member := members[id];
      var published := Retire(disk.ledger, id, member.seqNo);
      var fault := *;
      if fault {
        var renamed := *;
        if renamed {
          disk := disk.(ledger := published);
          past := past.(accepted := past.accepted - {id});
        }
        poison := true;
        DiscardedLogs(w, id);
        OpenDisk(if renamed then Discarded(w, id) else w, Now());
        return Err(Io);
      }
      disk := disk.(ledger := published);
      members := members[id := member.(retired := true, archive := None)];
      tails := tails - {id};
      past := past.(accepted := past.accepted - {id});
      ghost var x := Now();
      assert x == Retired(w, id);
      HealthyIs(x);
      SweptFieldsOf(x);
      Gc();
      HealthyIs(Now());
      RetiresChain(w, x, Now(), id);
      return Ok(());
    }

    /** Registers a database, new or imported with its sealed records, and opens it. */
    method Register(id: Id, charge: U64, sealed: seq<Raw>) returns (r: Result<()>)
      requires Valid() && |sealed| <= U64_MAX
      modifies this
      ensures Valid()
      ensures old(poison) ==> poison
      ensures r.Ok? ==> !poison && id in members && !members[id].retired
      ensures r.Ok? && id !in old(members) ==>
        id in past.accepted && past.accepted[id] == sealed && id in tails && tails[id] == []
      ensures forall d | d in old(past.accepted) :: d in past.accepted && past.accepted[d] == old(past.accepted)[d]
      ensures id in old(members) || (r.Err? && !poison) ==> Now() == old(Now())
      ensures r.Err? ==>
        poison || (if id in old(members) then old(members)[id].retired else old(charged) + charge > options.indexBytes)
      ensures Grows(old(LogsOf(Now())), LogsOf(Now()))
      ensures OthersKept(old(Now()), Now(), id)
      ensures Enrols(old(disk.ledger), disk.ledger, id, charge, sealed) && past.protections == old(past.protections)
      ensures r.Ok? && id !in old(members) ==> members[id].checkpoint == |sealed|
    {
      hide OnDisk, InMemory, LogsOf, Grows, Healthy;
      ghost var w := Now();
      GrowsSelf(LogsOf(w));
      if poison { return Err(Poisoned); }
      HealthyIs(w);
      if id in members {
        if members[id].retired { return Err(Invalid); }
        return Ok(());
      }
      IndexFits(w);
      if charged + charge > options.indexBytes { return Err(Limit); }
      r := Join(id, charge, sealed);
      HealthyIs(Now());
    }

    // Publishes a new member and puts it into the books.
    method Join(id: Id, charge: U64, sealed: seq<Raw>) returns (r: Result<()>)
      requires !poison && Healthy(Now()) && id !in members && |sealed| <= U64_MAX
      requires charged + charge <= options.indexBytes
      modifies this
      ensures OnDisk(Now()) && (r.Ok? <==> !poison) && (r.Ok? ==> Healthy(Now()))
      ensures r.Ok? ==> id in members && !members[id].retired
      ensures r.Ok? ==> id in past.accepted && past.accepted[id] == sealed && id in tails && tails[id] == []
      ensures forall d | d in old(past.accepted) :: d in past.accepted && past.accepted[d] == old(past.accepted)[d]
      ensures Grows(old(LogsOf(Now())), LogsOf(Now()))
      ensures OthersKept(old(Now()), Now(), id)
      ensures Enrols(old(disk.ledger), disk.ledger, id, charge, sealed) && past.protections == old(past.protections)
      ensures r.Ok? ==> members[id].checkpoint == |sealed|
    {
      hide OnDisk, InMemory, LogsOf, Grows, Healthy, NewMember, Enrol, OthersKept, Enrols;
      ghost var w := Now();
      GrowsSelf(LogsOf(w));
      HealthyIs(w);
      IndexFits(w);
      RegisterKeeps(w, id, charge, sealed);
      RegisterGrows(w, id, charge, sealed);
      RegisterNew(w, id);
      RegisteredKept(w, id, charge, sealed);
      ghost var x := Registered(w, id, charge, sealed);
      HealthyIs(x);
      var published := Enrol(disk.ledger, id, charge, sealed);
      charged := charged + charge;
      var fault := *;
      if fault {
        var renamed := *;
        if renamed {
          disk := disk.(ledger := published);
          past := past.(accepted := past.accepted[id := sealed]);
        }
        poison := true;
        HalfRegistered(w, Now(), id, charge, sealed, renamed);
        OpenDisk(if renamed then x else w, Now());
        return Err(Io);
      }
      disk := disk.(ledger := published);
      members := members[id := NewMember(sealed)];
      tails := tails[id := []];
      past := past.(accepted := past.accepted[id := sealed]);
      NewMemberIs(sealed);
      assert Now() == x;
      return Ok(());
    }

    // Publishes an archive authority for a member and puts it into its books.
    method PublishArchive(id: Id, p: Protection, growth: nat, ghost due: nat) returns (r: Result<()>)
      requires !poison && due == growth <= charged && MayProtect(Owing(due), id, p, growth)
      requires MovesOn(Owing(due), id, p)
      modifies this`disk, this`poison, this`members, this`past
      ensures charged == old(charged)
      ensures r.Ok? ==>
        id in old(members) && !poison && Now() == Protected(old(Owing(due)), id, p, growth) && Healthy(Now())
      ensures r.Err? ==> poison && OnDisk(Now()) && past.accepted == old(past.accepted)
      ensures Grows(old(LogsOf(Now())), LogsOf(Now()))
      ensures OthersKept(old(Now()), Now(), id)
      ensures Lingers(old(Now()), Now(), id) && StaysOpen(old(Now()), Now(), id)
      ensures Grants(old(disk.ledger), disk.ledger, id, Authority(p.maxBytes, p.released))
      ensures past.protections == old(past.protections) + (if r.Ok? then growth else 0)
    {
      hide OnDisk, InMemory, LogsOf, Grows, MayProtect, Healthy, Grant, MovesOn;
      ghost var w := Owing(due);
      OpenDisk(w, Now());
      GrowsSelf(LogsOf(w));
      ProtectFacts(w, id, p, growth);
      ProtectKeeps(w, id, p, growth);
      ProtectOnDisk(w, id, p, growth);
      MovesOnFacts(w, id, p, growth);
      ghost var x := Protected(w, id, p, growth);
      HealthyIs(x);
      HealthyIs(w);
      GrantKept(disk.ledger, id, Authority(p.maxBytes, p.released));
      var published := Grant(disk.ledger, id, Authority(p.maxBytes, p.released));
      var fault := *;
      if fault {
        var renamed := *;
        if renamed { disk := disk.(ledger := published); }
        poison := true;
        OpenDisk(if renamed then w.(disk := w.disk.(ledger := Grant(w.disk.ledger, id,
                                                                    Authority(p.maxBytes, p.released)))) else w, Now());
        return Err(Io);
      }
      disk := disk.(ledger := published);
      members := members[id := members[id].(archive := Some(p))];
      past := past.(protections := past.protections + growth);
      assert Now() == x;
      OpenDisk(x, Now());
      return Ok(());
    }

    /**
     Protects a member's history from now on, or changes the quota of its protection. But for a
     fault, it is refused exactly when `Protectable` says so.
     */
    method EnableArchive(id: Id, maxBytes: nat) returns (r: Result<()>)
      requires Valid()
      requires id in members ==> !members[id].retired
      modifies this
      ensures Valid() && past.accepted == old(past.accepted)
      ensures old(poison) ==> poison
      ensures r.Ok? ==>
        !poison && id in members && members[id].archive.Some? && members[id].archive.value.maxBytes == maxBytes
      ensures r.Ok? && id in old(members) && old(members[id].archive.None?) ==>
        id in past.accepted && members[id].archive.value.released.seqNo == |past.accepted[id]|
      ensures r.Ok? ==> Protectable(old(Now()), id, maxBytes)
      ensures disk.ledger != old(disk.ledger) ==> !old(poison) && Protectable(old(Now()), id, maxBytes)
      ensures r.Err? && !poison ==> !Protectable(old(Now()), id, maxBytes)
      ensures Grows(old(LogsOf(Now())), LogsOf(Now()))
      ensures OthersKept(old(Now()), Now(), id) && Lingers(old(Now()), Now(), id) && StaysOpen(old(Now()), Now(), id)
      ensures Requotas(old(disk.ledger), disk.ledger, id, maxBytes, old(past.accepted))
      ensures r.Ok? && id in old(members) && old(members[id].archive.Some?) ==>
        members[id].archive.value == old(members[id].archive.value).(maxBytes := maxBytes)
      ensures r.Ok? && id in old(members) && old(members[id].archive.None?) ==>
        members[id].archive.value.released == Cursor(|past.accepted[id]|, 32)
        && charged == old(charged) + PROTECTION_CHARGE && past.protections == old(past.protections) + PROTECTION_CHARGE
    {
      hide OnDisk, InMemory, LogsOf, Grows, Healthy, MayProtect, PinnedBytes;
      ghost var w := Now();
      GrowsSelf(LogsOf(w));
      if maxBytes < 131_072 || maxBytes > 8_589_934_592 { return Err(Invalid); }
      if poison { return Err(Poisoned); }
      HealthyIs(w);
      if id !in members { return Err(Corruption); }
      var synced := SyncMember(id);
      if synced.Err? { return Err(synced.error); }
      ghost var v := Now();
      HealthyIs(v);
      r := Protect(id, maxBytes);
      HealthyIs(Now());
      GrowsChain(w, v, Now());
    }

    // The part of enabling that follows the sync.
    method Protect(id: Id, maxBytes: nat) returns (r: Result<()>)
      requires !poison && Healthy(Now()) && id in members && !members[id].retired && members[id].lsn <= durable
      modifies this
      ensures OnDisk(Now()) && (!poison ==> Healthy(Now())) && past.accepted == old(past.accepted)
      ensures r.Ok? ==>
        !poison && id in members && members[id].archive.Some? && members[id].archive.value.maxBytes == maxBytes
      ensures r.Ok? && old(members[id].archive.None?) ==>
        id in past.accepted && members[id].archive.value.released.seqNo == |past.accepted[id]|
      ensures r.Ok? ==> HasQuota(old(Now()), id, maxBytes)
      ensures disk.ledger != old(disk.ledger) ==> HasQuota(old(Now()), id, maxBytes)
      ensures r.Err? && !poison ==> !HasQuota(old(Now()), id, maxBytes)
      ensures Grows(old(LogsOf(Now())), LogsOf(Now()))
      ensures OthersKept(old(Now()), Now(), id) && Lingers(old(Now()), Now(), id) && StaysOpen(old(Now()), Now(), id)
      ensures Requotas(old(disk.ledger), disk.ledger, id, maxBytes, old(past.accepted))
      ensures r.Ok? && id in old(members) && old(members[id].archive.Some?) ==>
        members[id].archive.value == old(members[id].archive.value).(maxBytes := maxBytes)
      ensures r.Ok? && id in old(members) && old(members[id].archive.None?) ==>
        members[id].archive.value.released == Cursor(|past.accepted[id]|, 32)
        && charged == old(charged) + PROTECTION_CHARGE && past.protections == old(past.protections) + PROTECTION_CHARGE
    {
      hide OnDisk, InMemory, LogsOf, Grows, Healthy, MayProtect, PinnedBytes, MovesOn;
      ghost var v := Now();
      GrowsSelf(LogsOf(v));
      HealthyIs(v);
      MayRetireNow(v, id);
      MemberDurable(v, id);
      BooksAgree(v, id);
      var member := members[id];
      if member.archive.Some? {
        var p := member.archive.value;
        if PinnedBytes(p) > maxBytes { return Err(Limit); }
        if p.maxBytes != maxBytes {
          MayResize(v, id, maxBytes);
          ResizeMoves(v, id, maxBytes);
          assert Owing(0) == v;
          r := PublishArchive(id, p.(maxBytes := maxBytes), 0, 0);
          HealthyIs(Now());
          return;
        }
        return Ok(());
      }
      IndexFits(v);
      if charged + PROTECTION_CHARGE > options.indexBytes { return Err(Limit); }
      if member.seqNo == U64_MAX {
        // The charge has been taken when the cursor turns out not to be representable.
        ChargeKeeps(v, PROTECTION_CHARGE);
        ChargeSame(v, PROTECTION_CHARGE);
        charged := charged + PROTECTION_CHARGE;
        past := past.(protections := past.protections + PROTECTION_CHARGE);
        HealthyIs(Now());
        return Err(Corruption);
      }
      MayEnable(v, id, maxBytes);
      EnableMoves(v, id, maxBytes);
      charged := charged + PROTECTION_CHARGE;
      assert Owing(PROTECTION_CHARGE) == v;
      var cursor := Cursor(member.seqNo, 32);
      OpenDisk(v, Now());
      r := PublishArchive(id, Protection(maxBytes, cursor, cursor, cursor), PROTECTION_CHARGE, PROTECTION_CHARGE);
      HealthyIs(Now());
    }

    /** The locked part of a release: publishes it and reclaims. The cursor is a durable record boundary. */
    method Release(id: Id, through: Cursor) returns (r: Result<()>)
      requires Valid()
      requires !poison ==> RecordBoundary(Now(), id, through) && !members[id].retired
      modifies this
      ensures Valid() && past.accepted == old(past.accepted)
      ensures old(poison) ==> poison
      ensures r.Ok? ==>
        !poison && id in members && members[id].archive.Some? && members[id].archive.value.released == through
      ensures r.Err? ==> poison
      ensures Grows(old(LogsOf(Now())), LogsOf(Now()))
      ensures OthersKept(old(Now()), Now(), id)
      ensures Lingers(old(Now()), Now(), id) && StaysOpen(old(Now()), Now(), id)
      ensures Rereleases(old(disk.ledger), disk.ledger, id, through) && past.protections == old(past.protections)
      ensures r.Ok? && disk.ledger != old(disk.ledger) ==> Tight(Now())
    {
      hide OnDisk, InMemory, LogsOf, Grows, Healthy, MayProtect, CursorAt, DurableOf, Swept, MayRetire, MovesOn, Covers,
           Pruned, Tight;
      ghost var w := Now();
      GrowsSelf(LogsOf(w));
      if poison { return Err(Poisoned); }
      HealthyIs(w);
      MayRetireNow(w, id);
      ArchiveFacts(w, id);
      BooksAgree(w, id);
      BoundaryCovers(w, id, through);
      var p := members[id].archive.value;
      // Checked again under the lock; a boundary cannot lie before the release.
      assert Covers(through, p.released) == Ok(true);
      if through == p.released { return Ok(()); }
      MayRelease(w, id, through);
      ReleaseMoves(w, id, through);
      assert Owing(0) == w;
      r := PublishArchive(id, p.(released := through), 0, 0);
      ghost var x := Now();
      HealthyIs(x);
      if r.Err? { return; }
      SweptFieldsOf(x);
      Gc();
      HealthyIs(Now());
      GrowsChain(w, x, Now());
    }

    // ---------------------------------------------------- crash and recovery

    /**
     The machine stops: for any choice of the device, the last file keeps `n` bytes that
     cover what is stable, or a file whose creation never became stable vanishes.
     */
    method Crash(n: nat, vanish: bool)
      requires Valid()
      requires disk.files != [] ==> MayLose(disk, n, vanish)
      modifies this
      ensures Valid() && poison && Settled(owner, disk, past) && disk.ledger == old(disk.ledger)
      ensures Cuts(old(LogsOf(Now())), LogsOf(Now()))
      ensures old(Settled(owner, disk, past) && (disk.files == [] || 0 < disk.stable)) ==> Now() == old(Now())
    {
      hide OnDisk, InMemory, LogsOf, Cuts, Settled, Layout, Live, CutSegs, CutFiles, Recovered;
      ghost var w := Now();
      poison := true;
      OpenDisk(w, Now());
      if disk.files == [] {
        EmptySettled(w);
        return;
      }
      SettledSame(w, n);
      SettledSame(w, n);
      if vanish {
        MayVanishNow(w);
        VanishKeeps(w);
        VanishCuts(w);
        past := Vanished(w).past;
        var kept := disk.files[..|disk.files| - 1];
        disk := disk.(files := kept, stable := if kept == [] then 0 else |Last(kept).bytes|);
        OpenDisk(Vanished(w), Now());
      } else {
        MayCutNow(w, n);
        CrashKeeps(w, n);
        CrashCuts(w, n);
        past := Crashed(w, n).past;
        disk := disk.(files := CutFiles(disk.files, n), stable := n);
        OpenDisk(Crashed(w, n), Now());
      }
    }

    /** A new log over an empty directory; it has to be opened. */
    constructor (options: Options, owner: Owner)
      ensures Valid() && poison && Settled(this.owner, disk, past) && this.options == options && this.owner == owner
      ensures past.accepted == map[] && disk.files == []
    {
      this.options, this.owner := options, owner;
      segment, offset, lsn, durable, storage, charged := 0, 0, 0, 0, 0, 0;
      buffer, members, segments, tails := [], map[], [], map[];
      poison := true;
      disk := Disk([], map[], Ledger([], map[], map[], map[]), 0);
      past := History([], map[], 0, 0);
    }

    // Publishes the boundary of a torn last file; a fault may publish it or not.
    method PublishFence(fence: Option<Boundary>) returns (r: Result<()>)
      requires poison && Closed(Now()) && fence == Scanned(Now()).fence
      modifies this
      ensures poison && Closed(Now()) && LogsOf(Now()) == old(LogsOf(Now()))
      ensures r.Ok? ==> Now() == FencedWorld(old(Now()))
      ensures fence.None? ==> r.Ok?
      ensures disk.ledger == old(disk.ledger)
    {
      hide Closed, LogsOf, Scanned, BoundaryOf, Fenced;
      ghost var w := Now();
      FenceKeeps(w);
      ScannedIs(w);
      if fence.None? { return Ok(()); }
      var number := Last(disk.files).number;
      var fault := *;
      if fault {
        var renamed := *;
        if renamed { disk := disk.(boundaries := disk.boundaries[number := fence.value]); }
        return Err(Io);
      }
      disk := disk.(boundaries := disk.boundaries[number := fence.value]);
      return Ok(());
    }

    // Creates the segment file that recovery continues in.
    method CreateFirst(number: U64, first: U64) returns (r: Result<()>)
      requires poison && MayExtend(Now()) && number == NextNumber(Now()) && first == past.safe + 1
      modifies this
      ensures poison && OnDisk(Now()) && LogsOf(Now()) == old(LogsOf(Now()))
      ensures r.Ok? ==> Now() == Grown(old(Now()), SEGMENT_HEADER) && Closed(Now()) && !Fenced(Last(past.segs))
      ensures disk.ledger == old(disk.ledger)
    {
      hide OnDisk, Closed, LogsOf, MayExtend, EncodeHeader, Fenced;
      ghost var w := Now();
      MayExtendClosed(w);
      var header := EncodeHeader(owner, number, first);
      HeaderLength(owner, number, first);
      ExtendOnDisk(w, SEGMENT_HEADER);
      ExtendSettled(w);
      Sequences.Neutral(header);
      var fault := *;
      if fault {
        var made := *;
        if made {
          var n :| 0 <= n <= SEGMENT_HEADER;
          ExtendOnDisk(w, n);
          disk := disk.(files := disk.files + [File(number, header[..n])],
                        stable := if n == SEGMENT_HEADER then n else 0);
          past := past.(segs := past.segs + [Fresh(number, first)]);
        }
        return Err(Io);
      }
      disk := disk.(files := disk.files + [File(number, header)], stable := SEGMENT_HEADER);
      past := past.(segs := past.segs + [Fresh(number, first)]);
      return Ok(());
    }

    // Fills the memory once the directory is settled and its last segment is free.
    method Adopt(p: Progress, found: map<Id, Member>, ghost base: nat)
      requires poison && Closed(Now()) && past.segs != [] && !Fenced(Last(past.segs)) && base == BaseOf(Now())
      requires Tallies(Now(), p, base)
      requires p.storage <= options.maxBytes && p.charged <= options.indexBytes
      requires AllFinished(ShownAll(disk.ledger, Live(past.segs)), found)
      modifies this
      ensures !poison && Healthy(Now()) && LogsOf(Now()) == old(LogsOf(Now())) && past.segs == old(past.segs)
      ensures disk == old(disk)
      ensures members == found && lsn == durable == old(past.safe)
      ensures MayOpen(Now(), BaseOf(Now())) && past == old(past).(protections := past.protections)
    {
      hide Closed, LogsOf, Healthy, ShownAll, Live, Storage, Charges, Summaries, AllFinished, Fenced, BaseOf,
           RegistryCharge, Tallies, Started, MayOpen;
      ghost var v := Now();
      AdoptReady(v, p, found, base);
      ghost var x := Started(v, found, base);
      SetPosition(Last(disk.files), p.next.value - 1);
      storage, charged, members, segments, tails, poison := p.storage, p.charged, found, p.segments, map[], false;
      past := x.past;
      assert Now() == x;
    }

    // Everything up to this LSN is in the file and stable.
    method SetPosition(file: File, last: U64)
      requires file.number <= U64_MAX && |file.bytes| <= U64_MAX
      modifies this`segment, this`offset, this`lsn, this`durable, this`buffer
      ensures segment == file.number && offset == |file.bytes| && lsn == durable == last && buffer == []
    {
      segment, offset, lsn, durable, buffer := file.number, |file.bytes|, last, last, [];
    }

    // Starts a new segment when the last one may not be written.
    method Continue(p: Progress, ghost base: nat) returns (r: Result<Progress>, ghost faulted: bool)
      requires poison && MayContinue(Now(), p, base)
      modifies this
      ensures poison && OnDisk(Now()) && LogsOf(Now()) == old(LogsOf(Now()))
      ensures r.Ok? ==> Continued(old(Now()), Now(), p, r.value, base)
      ensures !Rotates(old(past.segs)) ==> r.Ok? && Now() == old(Now())
      ensures r.Err? ==> Rotates(old(past.segs))
      ensures r.Err? ==> (faulted || old(NextNumber(Now())) > U64_MAX || p.storage + SEGMENT_HEADER > options.maxBytes)
      ensures disk.ledger == old(disk.ledger)
    {
      hide OnDisk, LogsOf, MayContinue, Continued, MayExtend, Closed, Fenced, Grown;
      ghost var w := Now();
      ContinueFacts(w, p, base);
      if disk.files != [] && !p.rotate { return Ok(p), false; }
      var last := if disk.files == [] then 0 else Last(disk.files).number;
      if last >= U64_MAX { return Err(Corruption), false; }
      if p.storage + SEGMENT_HEADER > options.maxBytes { return Err(Limit), false; }
      GrowContinues(w, p, base);
      var created := CreateFirst(last + 1, p.next.value);
      if created.Err? { return Err(created.error), true; }
      return Ok(Rotated(p, last + 1)), false;
    }

    // The part of opening that follows the scan.
    method Start(p: Progress, found: map<Id, Member>) returns (r: Result<()>, ghost faulted: bool)
      requires poison && Closed(Now()) && p == Scanned(Now()) && NextFits(p)
      requires AllFinished(p.members, found) && p.storage <= options.maxBytes
      modifies this
      ensures OnDisk(Now()) && (!poison ==> Healthy(Now())) && LogsOf(Now()) == old(LogsOf(Now()))
      ensures r.Ok? <==> !poison
      ensures Openable(old(Now())) ==> r.Ok? || faulted
      ensures r.Ok? ==> Live(past.segs) == old(Live(past.segs)) && disk.ledger == old(disk.ledger)
      ensures r.Ok? ==> members == found && lsn == old(past.safe)
      ensures r.Ok? ==> MayOpen(Now(), BaseOf(Now()))
      ensures !Rotates(old(past.segs)) ==> Untouched(old(Now()), Now()) && !faulted
      ensures disk.ledger == old(disk.ledger)
    {
      hide MayOpen, OnDisk, Closed, LogsOf, Healthy, ShownAll, Live, AllFinished, Fenced, BaseOf, Scanned, Tallies,
           ToRotate, NextFits, Openable, Rotates, FencedWorld, MayContinue, Continued;
      ghost var w := Now();
      ghost var base := BaseOf(w);
      ScanTallies(w);
      FenceKeeps(w);
      OpenableRoom(w);
      var fenced := PublishFence(p.fence);
      ClosedIs(Now());
      if fenced.Err? { return fenced, true; }
      FencedIs(w);
      var q := p.(next := if p.next.Some? then p.next else Some(1));
      var continued;
      ghost var v := Now();
      MayContinueNow(v, q, base);
      continued, faulted := Continue(q, base);
      if continued.Err? { return Err(continued.error), faulted; }
      ContinuedFacts(v, Now(), q, continued.value, base);
      ClosedIs(Now());
      var total := continued.value;
      if total.charged > options.indexBytes { return Err(Limit), false; }
      Adopt(total, found, base);
      HealthyIs(Now());
      return Ok(()), false;
    }

    /**
     Recovery: reads the whole directory, fences a torn tail and opens the log. It accepts
     exactly the whole frames, so no record is lost or gained by reopening, and without a
     fault it succeeds whenever there is room.
     */
    method Open() returns (r: Result<()>, ghost faulted: bool)
      requires Valid() && poison && options.Valid() && Settled(owner, disk, past)
      modifies this
      ensures Valid() && LogsOf(Now()) == old(LogsOf(Now()))
      ensures r.Ok? <==> !poison
      ensures Openable(old(Now())) ==> r.Ok? || faulted
      ensures r.Ok? ==> Live(past.segs) == old(Live(past.segs)) && disk.ledger == old(disk.ledger)
      ensures r.Ok? ==> lsn == old(past.safe) && AllFinished(ShownAll(disk.ledger, Live(past.segs)), members)
      ensures r.Ok? ==> MayOpen(Now(), BaseOf(Now()))
      ensures !Rotates(old(past.segs)) ==> Untouched(old(Now()), Now()) && !faulted
      ensures disk.ledger == old(disk.ledger)
    {
      hide MayOpen, OnDisk, InMemory, Closed, LogsOf, Settled, Live, Storage, Charges, BaseCharge, Scanned, ScanFiles,
           Begin, AllLoaded, Affordable, Countable, NextFits;
      ghost var w := Now();
      OpenClosed(w);
      ScanOfClosed(w);
      ClosedRegistry(w);
      OpenableBase(w);
      var loaded := LoadRegistry(disk.ledger, options);
      if loaded.Err? { return Err(loaded.error), false; }
      var scanned := ScanLog(owner, options, disk.boundaries, disk.files, loaded.value.0, loaded.value.1);
      if scanned.Err? { return Err(scanned.error), false; }
      var p := scanned.value;
      ScannedIs(w);
      StorageFits(w);
      // No member of an intact log lacks its archive anchor: `ClosedFinish`.
      ClosedFinish(w);
      var finished := FinishMembers(p.members);
      r, faulted := Start(p, finished.value);
      HealthyIs(Now());
    }

    /**
     Recovery is idempotent: crashing right after a recovery and recovering once more gives
     the same log, with its members, positions, accounts and directory, the boundary and
     the segment that the first recovery added included. While every checkpoint has a
     successor among 64-bit numbers, it cannot fail the second time.
     */
    method Restart() returns (first: Result<()>, second: Result<()>, ghost once: World)
      requires Valid() && poison && options.Valid() && Settled(owner, disk, past)
      modifies this
      ensures Valid() && LogsOf(Now()) == old(LogsOf(Now()))
      ensures first.Ok? && second.Ok? ==> Now() == once && Healthy(once)
      ensures first.Ok? && Countable(once.disk.ledger) ==> second.Ok?
      ensures first.Ok? ==> Live(once.past.segs) == old(Live(past.segs)) && once.disk.ledger == old(disk.ledger)
      ensures disk.ledger == old(disk.ledger)
    {
      hide OnDisk, InMemory, LogsOf, Settled, Live, ShownAll, AllFinished, MayOpen, Openable, BaseOf, Countable, MayCut,
           Rotates, Cuts;
      ghost var opening;
      first, opening := Open();
      once := Now();
      if first.Err? { return first, first, once; }
      OpenedSettled(once);
      OpenedAgain(once);
      Crash(|Last(disk.files).bytes|, false);
      second, opening := Open();
      HealthyIs(once);
      if second.Ok? { OpenedOnce(once, Now()); }
    }
  }

  lemma PrunedTight(w: World, v: World)
    requires Pruned(w, v)
    ensures Tight(v)
  {
    hide Needed;
  }

  // ---------------------------------------------------------- what stays

  /** Nothing of any other member has changed, neither in memory nor in its files nor in its records. */
  predicate OthersKept(w: World, v: World, d: Id) {
    && v.mem.members - {d} == w.mem.members - {d} && v.mem.tails - {d} == w.mem.tails - {d}
    && v.past.accepted - {d} == w.past.accepted - {d} && LedgerKept(w.disk.ledger, v.disk.ledger, d)
  }

  // The files of all other members are what they were.
  predicate LedgerKept(a: Ledger, b: Ledger, d: Id) {
    b.manifests - {d} == a.manifests - {d} && b.retirements - {d} == a.retirements - {d}
      && b.archives - {d} == a.archives - {d}
  }

  /** A member's checkpoint has not moved. */
  predicate Lingers(w: World, v: World, d: Id) {
    d in w.mem.members ==> d in v.mem.members && v.mem.members[d].checkpoint == w.mem.members[d].checkpoint
  }

  // The member's database is open exactly when it was.
  predicate StaysOpen(w: World, v: World, d: Id) { d in v.mem.tails <==> d in w.mem.tails }

  /** Of the other members nothing, and of this one neither its files nor its checkpoint has changed. */
  predicate Undisturbed(w: World, v: World, d: Id) {
    OthersKept(w, v, d) && Lingers(w, v, d) && StaysOpen(w, v, d) && v.disk.ledger == w.disk.ledger
      && v.past.protections == w.past.protections
  }

  lemma UndisturbedTrans(a: World, b: World, c: World, d: Id)
    requires Undisturbed(a, b, d) && Undisturbed(b, c, d)
    ensures Undisturbed(a, c, d)
  {
  }

  lemma UndisturbedSelf(w: World, d: Id)
    ensures Undisturbed(w, w, d)
  {
  }

  // The books of a member agree with its files.
  lemma BooksAgree(w: World, d: Id)
    requires MayRetire(w, d)
    ensures d in w.past.accepted && |w.past.accepted[d]| == w.mem.members[d].seqNo && d in w.disk.ledger.manifests
    ensures w.mem.members[d].archive.Some? <==> d in w.disk.ledger.archives
    ensures w.mem.members[d].archive.Some? ==>
      w.disk.ledger.archives[d] ==
      Authority(w.mem.members[d].archive.value.maxBytes, w.mem.members[d].archive.value.released)
  {
    hide Healthy, Stored, Until, DurableSeq, CursorAt, Below, Encodable;
    MemberReady(w, d);
  }

  lemma PushedKept(w: World, f: Frame)
    requires w.past.segs != [] && w.mem.segments != [] && f.id in w.mem.members && f.id in w.past.accepted
    ensures Undisturbed(w, Pushed(w, f), f.id)
  {
    hide EncodeFrame, FrameLength, EntryGrowth, Charged, Put, ExtendedLast, Advance;
  }

  lemma UndisturbedOwing(w: World, x: World, v: World, d: Id)
    requires x == w.(mem := w.mem.(charged := x.mem.charged)) && Undisturbed(w, v, d)
    ensures Undisturbed(x, v, d)
  {
  }

  lemma RetiredKept(w: World, d: Id)
    requires MayRetire(w, d)
    ensures OthersKept(w, Retired(w, d), d) && OthersKept(w, Discarded(w, d), d)
    ensures Dismisses(w.disk.ledger, Retire(w.disk.ledger, d, w.mem.members[d].seqNo), d, w.past.accepted)
  {
    hide Healthy;
    BooksAgree(w, d);
  }

  lemma OthersRecords(w: World, v: World, d: Id)
    requires OthersKept(w, v, d)
    ensures forall e | e in w.past.accepted && e != d ::
      e in v.past.accepted && v.past.accepted[e] == w.past.accepted[e]
  {
    forall e | e in w.past.accepted && e != d
      ensures e in v.past.accepted && v.past.accepted[e] == w.past.accepted[e]
    {
      assert e in w.past.accepted - {d} && e in v.past.accepted - {d};
    }
  }

  lemma RetireReady(w: World, d: Id)
    requires MayRetire(w, d)
    ensures Healthy(w) && OnDisk(w) && d in w.mem.members && !w.mem.members[d].retired
  {
    hide OnDisk, InMemory;
  }

  lemma RegisteredKept(w: World, d: Id, charge: nat, sealed: seq<Raw>)
    requires d !in w.mem.members && d !in w.disk.ledger.manifests && d !in w.past.accepted
    ensures OthersKept(w, Registered(w, d, charge, sealed), d)
    ensures Enrols(w.disk.ledger, Enrol(w.disk.ledger, d, charge, sealed), d, charge, sealed)
    ensures NewMember(sealed).checkpoint == |sealed|
    ensures LedgerKept(w.disk.ledger, Enrol(w.disk.ledger, d, charge, sealed), d)
  {
  }

  // A registration that a fault has cut short, with its files or without.
  lemma HalfRegistered(w: World, u: World, d: Id, charge: nat, sealed: seq<Raw>, renamed: bool)
    requires d !in w.mem.members && d !in w.disk.ledger.manifests && d !in w.past.accepted
    requires u.mem.members == w.mem.members && u.mem.tails == w.mem.tails
    requires u.disk.ledger == if renamed then Enrol(w.disk.ledger, d, charge, sealed) else w.disk.ledger
    requires u.past.accepted == if renamed then w.past.accepted[d := sealed] else w.past.accepted
    ensures OthersKept(w, u, d) && Enrols(w.disk.ledger, u.disk.ledger, d, charge, sealed)
  {
  }

  lemma GrantKept(ledger: Ledger, d: Id, authority: Authority)
    ensures Grants(ledger, Grant(ledger, d, authority), d, authority)
    ensures LedgerKept(ledger, Grant(ledger, d, authority), d)
  {
  }

  /** A member's manifest may have taken all that it was accepted to hold; no other file has changed. */
  predicate Reseals(a: Ledger, b: Ledger, d: Id, accepted: map<Id, seq<Raw>>) {
    b == a || (d in accepted && b == a.(manifests := a.manifests[d := accepted[d]]))
  }

  /** A member may have been retired at its last record; no other file has changed. */
  predicate Dismisses(a: Ledger, b: Ledger, d: Id, accepted: map<Id, seq<Raw>>) {
    b == a || (d in accepted && b == a.(retirements := a.retirements[d := |accepted[d]|]))
  }

  /** A new member may have been registered with its manifest; no other file has changed. */
  predicate Enrols(a: Ledger, b: Ledger, d: Id, charge: nat, sealed: seq<Raw>) {
    b == a || (d !in a.manifests && b == a.(registry := a.registry + [Registration(d, charge)],
                                            manifests := a.manifests[d := sealed]))
  }

  // A member's archive authority may have been written; no other file has changed.
  predicate Grants(a: Ledger, b: Ledger, d: Id, authority: Authority) {
    b == a || b == a.(archives := a.archives[d := authority])
  }

  /** An archive may have another quota, or a new one begins behind the last record; its release has not moved. */
  predicate Requotas(a: Ledger, b: Ledger, d: Id, maxBytes: nat, accepted: map<Id, seq<Raw>>) {
    if d in a.archives then Grants(a, b, d, Authority(maxBytes, a.archives[d].released))
    else b == a || (d in accepted && Grants(a, b, d, Authority(maxBytes, Cursor(|accepted[d]|, 32))))
  }

  /** An archive may have another release; its quota has not changed. */
  predicate Rereleases(a: Ledger, b: Ledger, d: Id, through: Cursor) {
    b == a || (d in a.archives && Grants(a, b, d, Authority(a.archives[d].maxBytes, through)))
  }

  // What a crash may take from the last file: bytes that are not stable, or all of it while its creation is not.
  predicate MayLose(disk: Disk, n: nat, vanish: bool)
    requires disk.files != []
  {
    if vanish then disk.stable == 0 && Last(disk.files).number !in disk.boundaries
    else disk.stable <= n <= |Last(disk.files).bytes|
  }

  lemma MayVanishNow(w: World)
    requires OnDisk(w) && w.disk.files != [] && w.disk.stable == 0 && Last(w.disk.files).number !in w.disk.boundaries
    ensures MayVanish(w.owner, w.disk, w.past)
  {
    hide Threads, SegsOk, BoundariesOk, StableOk, Content;
  }

  lemma MayCutNow(w: World, n: nat)
    requires OnDisk(w) && w.disk.files != [] && w.disk.stable <= n <= |Last(w.disk.files).bytes|
    ensures MayCut(w.owner, w.disk, w.past, n)
  {
    hide Threads, SegsOk, BoundariesOk, StableOk, Content, Fenced, Length;
    var bytes, s := Last(w.disk.files).bytes, Last(w.past.segs);
    assert LastFileOk(w.owner, bytes, s, w.disk.stable);
    assert |bytes| <= |Content(w.owner, s)| == Length(s);
  }

  lemma SettledSame(w: World, n: nat)
    requires OnDisk(w)
    ensures Settled(w.owner, w.disk, w.past) && MayCut(w.owner, w.disk, w.past, n) ==> Crashed(w, n) == w
  {
    hide OnDisk, Settled, MayCut, Crashed;
    if Settled(w.owner, w.disk, w.past) && MayCut(w.owner, w.disk, w.past, n) { SettledUncut(w, n); }
  }

  lemma OpenedSettled(w: World)
    requires MayOpen(w, BaseOf(w))
    ensures Settled(w.owner, w.disk, w.past) && w.options.Valid() && w.disk.files != [] && !Rotates(w.past.segs)
    ensures 0 < w.disk.stable == |Last(w.disk.files).bytes|
  {
    hide Threads, SegsOk, BoundariesOk, StableOk, Content, Live, BaseOf, Size, Affordable, RegistryCharge, AllFinished,
         Summaries, ShownAll, Storage, Charges;
  }

  lemma OpenedAgain(w: World)
    requires MayOpen(w, BaseOf(w))
    ensures Countable(w.disk.ledger) ==> Openable(w)
  {
    hide MayOpen, Openable, Countable, BaseOf, Rotates;
    if Countable(w.disk.ledger) { OpenedOpenable(w); }
  }

  // Opening has written nothing.
  predicate Untouched(w: World, v: World) {
    v.options == w.options && v.owner == w.owner && v.disk == w.disk
      && v.past == w.past.(protections := v.past.protections)
  }

  // One more header when the log must rotate.
  function Spare(w: World, n: nat): nat { if Rotates(w.past.segs) then n else 0 }

  // A fenced log and what its scan counted.
  predicate MayContinue(w: World, p: Progress, base: nat) {
    && Closed(w) && Tallies(w, p, base) && ToRotate(w, p) && base == BaseOf(w)
    && (w.past.segs != [] && Fenced(Last(w.past.segs)) ==> Last(w.past.segs).number in w.disk.boundaries)
  }

  function Rotated(p: Progress, number: nat): Progress {
    p.(storage := p.storage + SEGMENT_HEADER, charged := p.charged + SEGMENT_CHARGE,
       segments := p.segments + [Segment(number, SEGMENT_HEADER, map[])])
  }

  // The log may be written, and the counts have followed.
  predicate Continued(w: World, v: World, p: Progress, q: Progress, base: nat) {
    && Closed(v) && v.past.segs != [] && !Fenced(Last(v.past.segs)) && Tallies(v, q, base) && base == BaseOf(v)
    && Live(v.past.segs) == Live(w.past.segs) && v.disk.ledger == w.disk.ledger && v.options == w.options
    && v.past.safe == w.past.safe
    && q.storage == p.storage + Spare(w, SEGMENT_HEADER) && q.charged == p.charged + Spare(w, SEGMENT_CHARGE)
    && (Rotates(w.past.segs) ==> q.storage <= w.options.maxBytes)
  }

  lemma MayContinueNow(w: World, p: Progress, base: nat)
    requires Closed(w) && Tallies(w, p, base) && ToRotate(w, p) && base == BaseOf(w)
    requires w.past.segs != [] && Fenced(Last(w.past.segs)) ==> Last(w.past.segs).number in w.disk.boundaries
    ensures MayContinue(w, p, base)
  {
    hide Closed, Tallies, ToRotate, BaseOf, Fenced;
  }

  lemma ContinuedFacts(w: World, v: World, p: Progress, q: Progress, base: nat)
    requires Continued(w, v, p, q, base)
    ensures Closed(v) && v.past.segs != [] && !Fenced(Last(v.past.segs)) && Tallies(v, q, base) && base == BaseOf(v)
    ensures Live(v.past.segs) == Live(w.past.segs) && v.disk.ledger == w.disk.ledger && v.past.safe == w.past.safe
    ensures q.storage == p.storage + Spare(w, SEGMENT_HEADER) && q.charged == p.charged + Spare(w, SEGMENT_CHARGE)
    ensures Rotates(w.past.segs) ==> q.storage <= w.options.maxBytes
  {
    hide Closed, Tallies, BaseOf, Fenced, Live, Spare, Rotates;
  }

  lemma ContinueFacts(w: World, p: Progress, base: nat)
    requires MayContinue(w, p, base)
    ensures OnDisk(w) && p.next == Some(w.past.safe + 1) && w.past.safe + 1 <= U64_MAX
    ensures w.disk.files != [] && !p.rotate ==> Continued(w, w, p, p, base)
    ensures w.disk.files == [] || p.rotate ==> Rotates(w.past.segs)
    ensures NextNumber(w) == if w.disk.files == [] then 1 else Last(w.disk.files).number + 1
  {
    hide OnDisk, Settled, BaseOf, Fenced, Live, Storage, Charges, Summaries;
  }

  lemma GrowContinues(w: World, p: Progress, base: nat)
    requires MayContinue(w, p, base) && NextNumber(w) <= U64_MAX && Rotates(w.past.segs)
    requires p.storage + SEGMENT_HEADER <= w.options.maxBytes
    ensures MayExtend(w) && Continued(w, Grown(w, SEGMENT_HEADER), p, Rotated(p, NextNumber(w)), base)
  {
    hide Closed, BaseOf, Fenced, Live, Tallies, Grown, MayExtend;
    GrowFacts(w, p, base);
  }

  lemma GrowFacts(w: World, p: Progress, base: nat)
    requires MayContinue(w, p, base) && NextNumber(w) <= U64_MAX
    ensures MayExtend(w)
    ensures var v := Grown(w, SEGMENT_HEADER);
      && Closed(v) && v.past.segs != [] && !Fenced(Last(v.past.segs)) && Tallies(v, Rotated(p, NextNumber(w)), base)
      && base == BaseOf(v)
      && Live(v.past.segs) == Live(w.past.segs) && v.disk.ledger == w.disk.ledger && v.options == w.options
      && v.past.safe == w.past.safe
  {
    hide Closed, BaseOf, Fenced, Live, Tallies, MayExtend, EncodeHeader;
    TalliedNext(w, p, base);
    ExtendReady(w);
    GrownTallies(w, p, base);
    ExtendSettled(w);
  }

  lemma OpenableRoom(w: World)
    requires Closed(w)
    ensures FencedWorld(w).past == w.past && FencedWorld(w).options == w.options
    ensures (Rotates(FencedWorld(w).past.segs) <==> Rotates(w.past.segs)) && NextNumber(FencedWorld(w)) == NextNumber(w)
    ensures !Rotates(w.past.segs) ==> Scanned(w).fence.None? && FencedWorld(w) == w
    ensures Openable(w) ==>
      && Scanned(w).storage + Spare(w, SEGMENT_HEADER) <= w.options.maxBytes
      && Scanned(w).charged + Spare(w, SEGMENT_CHARGE) <= w.options.indexBytes
      && (Rotates(w.past.segs) ==> NextNumber(w) <= U64_MAX)
  {
    hide Closed, Storage, Charges, BaseCharge, Countable, Fenced, Scanned, BoundaryOf;
    ScannedIs(w);
  }

  lemma TalliedNext(w: World, p: Progress, base: nat)
    requires Tallies(w, p, base)
    ensures p.next == Some(w.past.safe + 1) && w.past.safe + 1 <= U64_MAX
  {
    hide Storage, Charges, Summaries;
  }

  lemma ClosedIs(w: World)
    ensures Closed(w) <==> OnDisk(w) && Settled(w.owner, w.disk, w.past) && w.options.Valid()
  {
    hide OnDisk, Settled;
  }

  lemma OpenClosed(w: World)
    requires OnDisk(w) && w.options.Valid() && Settled(w.owner, w.disk, w.past)
    ensures Closed(w)
  {
    hide OnDisk, Settled;
  }

  lemma ClosedRegistry(w: World)
    requires Closed(w)
    ensures RegistryOk(w.disk.ledger)
  {
    hide Layout, Settled, RegistryOk, Live, Stored;
  }

  lemma OpenableBase(w: World)
    ensures Openable(w) ==> BaseOf(w) <= w.options.indexBytes
  {
    hide Storage, Charges, BaseCharge, Countable, Fenced;
  }

  lemma StorageFits(w: World)
    requires Closed(w) && (w.past.segs != [] ==> Storage(w.past.segs) <= w.options.maxBytes)
    ensures Storage(w.past.segs) <= w.options.maxBytes
  {
    hide OnDisk, Settled;
  }

  lemma BaseAbove(w: World)
    ensures RegistryCharge(w.disk.ledger.registry) <= BaseOf(w)
  {
    hide BaseCharge, RegistryCharge;
    BaseCoversRegistry(w.disk.ledger, w.disk.ledger.registry);
  }

  lemma AdoptBounds(w: World)
    requires Closed(w) && w.past.segs != [] && Storage(w.past.segs) <= w.options.maxBytes
    ensures w.disk.files != [] && Last(w.disk.files).number == Last(w.past.segs).number <= U64_MAX
    ensures |Last(w.disk.files).bytes| == Length(Last(w.past.segs)) <= U64_MAX && w.options.maxBytes <= U64_MAX
    ensures w.options.indexBytes <= U64_MAX
  {
    hide Threads, Content, BoundariesOk, StableOk, Storage, Size, LegalFrames, Unfinished;
    LengthWithinStorage(w.past.segs);
    assert InPlace(w.past.segs, |w.past.segs| - 1);
  }

  // Everything the adoption needs to know about its step.
  lemma AdoptReady(v: World, p: Progress, found: map<Id, Member>, base: nat)
    requires Closed(v) && v.past.segs != [] && !Fenced(Last(v.past.segs)) && base == BaseOf(v) && Tallies(v, p, base)
    requires p.storage <= v.options.maxBytes && p.charged <= v.options.indexBytes
    requires AllFinished(ShownAll(v.disk.ledger, Live(v.past.segs)), found)
    ensures RegistryCharge(v.disk.ledger.registry) <= base && v.disk.files != []
    ensures var x := Started(v, found, base);
      && Healthy(x) && LogsOf(x) == LogsOf(v) && p.next == Some(v.past.safe + 1) && v.past.safe < U64_MAX
      && MayOpen(x, base) && base == BaseOf(x)
      && x == World(v.options, v.owner,
                    Memory(Last(v.disk.files).number, |Last(v.disk.files).bytes|, p.next.value - 1, p.next.value - 1,
                           [], p.storage, p.charged,
                           found, p.segments, map[]),
                    v.disk, v.past.(protections := base - RegistryCharge(v.disk.ledger.registry)))
    ensures Last(v.disk.files).number <= U64_MAX && |Last(v.disk.files).bytes| <= U64_MAX && p.storage <= U64_MAX
    ensures p.charged <= U64_MAX
  {
    hide Closed, LogsOf, Healthy, ShownAll, Live, Storage, Charges, Summaries, AllFinished, Fenced, BaseCharge,
         RegistryCharge, Length, MayOpen, Tallies;
    TalliesAre(v, p, base);
    BaseAbove(v);
    AdoptBounds(v);
    StartedHealthy(v, found, base);
  }

  lemma TalliesAre(w: World, p: Progress, base: nat)
    requires Tallies(w, p, base)
    ensures p.storage == Storage(w.past.segs) && p.charged == base + Charges(w.past.segs)
    ensures p.segments == Summaries(w.past.segs)
    ensures p.next == Some(w.past.safe + 1) && w.past.safe + 1 <= U64_MAX
  {
    hide Storage, Charges, Summaries;
  }

  // Fencing touches nothing but the boundaries.
  lemma FencedIs(w: World)
    ensures var v := FencedWorld(w);
      && v.options == w.options && v.owner == w.owner && v.past == w.past && v.disk.files == w.disk.files
      && v.disk.ledger == w.disk.ledger
      && BaseOf(v) == BaseOf(w)
  {
    hide BoundaryOf, Fenced, BaseCharge;
  }

  lemma ExtendReady(w: World)
    requires Closed(w) && NextNumber(w) <= U64_MAX && w.past.safe + 1 <= U64_MAX
    requires w.past.segs != [] && Fenced(Last(w.past.segs)) ==> Last(w.past.segs).number in w.disk.boundaries
    ensures MayExtend(w)
  {
    hide Closed, Fenced;
  }

  lemma MayExtendClosed(w: World)
    requires MayExtend(w)
    ensures Closed(w) && OnDisk(w)
  {
    hide Layout, Threads, Settled;
  }

  lemma EmptySettled(w: World)
    requires OnDisk(w) && w.disk.files == []
    ensures Settled(w.owner, w.disk, w.past) && Cuts(LogsOf(w), LogsOf(w))
  {
    hide Threads, Live, Of;
    EmptyDurable(w);
  }

  // Without any segment everything accepted is sealed.
  lemma EmptyDurable(w: World)
    requires OnDisk(w) && w.past.segs == []
    ensures forall d | d in w.past.accepted :: d in w.disk.ledger.manifests && DurableOf(w, d) == |w.past.accepted[d]|
  {
    hide Layout, Of, DurableSeq, RegistryOk, AllRegistered;
    LiveNone(w.past.segs);
    forall d | d in w.past.accepted ensures d in w.disk.ledger.manifests && DurableOf(w, d) == |w.past.accepted[d]| {
      assert Stored(Of(Live(w.past.segs), d), d, w.disk.ledger, w.past.accepted, w.past.safe);
      NoThread(Live(w.past.segs), d, w.past.accepted[d], |w.disk.ledger.manifests[d]|, Keep(w.disk.ledger, d),
               w.past.safe);
    }
  }

  lemma NoThread(live: seq<Placed>, d: Id, accepted: seq<Raw>, checkpoint: nat, keep: nat, safe: nat)
    requires live == [] && Carries(Of(live, d), accepted, checkpoint, keep, safe)
    ensures DurableSeq(Of(live, d), checkpoint, safe) == |accepted|
  {
  }

  /** A vanished file is a crash that loses no record. */
  lemma VanishCuts(w: World)
    requires OnDisk(w) && MayVanish(w.owner, w.disk, w.past)
    ensures Cuts(LogsOf(w), LogsOf(Vanished(w)))
  {
    hide Layout, Threads, Live, Of, DurableSeq, Settled, LogsOf, Next, Fenced;
    VanishKeeps(w);
    var v := Vanished(w);
    SameLogs(w, v);
    LogsSound(w);
    VanishFull(v);
  }

  lemma VanishFull(v: World)
    requires OnDisk(v) && Settled(v.owner, v.disk, v.past)
    ensures Cuts(LogsOf(v), LogsOf(v))
  {
    hide OnDisk, Layout, DurableOf, Next;
    forall d | d in v.past.accepted ensures d in v.disk.ledger.manifests && DurableOf(v, d) == |v.past.accepted[d]| {
      if v.past.segs == [] { EmptyDurable(v); } else { CrashAllDurable(v, d); }
    }
  }

  // The durable record boundaries of a protected member.
  predicate RecordBoundary(w: World, d: Id, c: Cursor) {
    && d in w.mem.members && w.mem.members[d].archive.Some? && d in w.past.accepted && d in w.disk.ledger.manifests
    && w.mem.members[d].archive.value.released.seqNo <= c.seqNo <= |w.past.accepted[d]| && c.seqNo <= DurableOf(w, d)
    && c == CursorAt(w.mem.members[d].archive.value.released, w.past.accepted[d], c.seqNo)
  }

  // A boundary lies between the release and the durable end.
  lemma BoundaryCovers(w: World, d: Id, c: Cursor)
    requires MayRetire(w, d) && RecordBoundary(w, d, c)
    ensures Covers(c, w.mem.members[d].archive.value.released) == Ok(true)
    ensures Covers(ReportedCursor(w.mem.members[d], w.mem.durable), c) == Ok(true)
  {
    hide OnDisk, InMemory, DurableOf, CursorAt, InspectRecord, Covers, Keep;
    ArchiveFacts(w, d);
    NeededRecords(w, d);
    var released, accepted := w.mem.members[d].archive.value.released, w.past.accepted[d];
    CoversOnChain(released, accepted, c.seqNo, released.seqNo);
    CoversOnChain(released, accepted, DurableOf(w, d), c.seqNo);
    CursorSelf(released, accepted);
  }

  lemma ChargeSame(w: World, growth: nat)
    ensures LogsOf(w.(mem := w.mem.(charged := w.mem.charged + growth),
                      past := w.past.(protections := w.past.protections + growth))) == LogsOf(w)
  {
    hide Live, Of, DurableSeq;
    SameLogs(w, w.(mem := w.mem.(charged := w.mem.charged + growth),
                   past := w.past.(protections := w.past.protections + growth)));
  }

  lemma GrewSame(w: World, v: World, x: World)
    requires Grows(LogsOf(w), LogsOf(v)) && LogsOf(x) == LogsOf(v)
    ensures Grows(LogsOf(w), LogsOf(x))
  {
    hide LogsOf;
  }

  lemma MayRetireNow(w: World, d: Id)
    requires Healthy(w) && d in w.mem.members && !w.mem.members[d].retired
    ensures MayRetire(w, d) && OnDisk(w)
  {
    hide OnDisk, InMemory;
  }

  lemma DiscardedLogs(w: World, d: Id)
    requires d in w.mem.members
    ensures LogsOf(Discarded(w, d)) == LogsOf(Retired(w, d))
  {
    hide Live, Of, DurableSeq;
  }

  lemma RegisterNew(w: World, d: Id)
    requires Healthy(w) && d !in w.mem.members
    ensures d !in w.past.accepted && d !in w.disk.ledger.manifests
  {
    hide Layout, Active, Accounts, Tails, Live, Of, Known, Stored;
    assert d !in w.mem.members.Keys;
  }

  lemma NewMemberIs(sealed: seq<Raw>)
    ensures !NewMember(sealed).retired
  {
  }

  lemma ProtectFacts(w: World, d: Id, p: Protection, growth: nat)
    requires MayProtect(w, d, p, growth)
    ensures d in w.mem.members && Healthy(w) && OnDisk(w) && w.mem.charged + growth <= U64_MAX
  {
    hide OnDisk, Active, Accounts, Members, Tails, Agreed;
  }

  // A release may only move on along its chain.
  predicate MovesOn(w: World, d: Id, p: Protection) {
    d in w.disk.ledger.archives && d in w.past.accepted ==> Follows(w.disk.ledger.archives[d].released, p.released,
                                                                    w.past.accepted[d])
  }

  lemma MovesOnFacts(w: World, d: Id, p: Protection, growth: nat)
    requires MayProtect(w, d, p, growth) && MovesOn(w, d, p)
    ensures d in w.mem.members && Grows(LogsOf(w), LogsOf(Protected(w, d, p, growth)))
    ensures Grows(LogsOf(w),
                  LogsOf(w.(disk := w.disk.(ledger := Grant(w.disk.ledger, d, Authority(p.maxBytes, p.released))))))
  {
    hide Healthy, LogsOf, Grows, Follows, Agreed;
    ProtectGrows(w, d, p, growth);
    SameLogs(Protected(w, d, p, growth),
             w.(disk := w.disk.(ledger := Grant(w.disk.ledger, d, Authority(p.maxBytes, p.released)))));
  }

  lemma ResizeMoves(w: World, d: Id, maxBytes: nat)
    requires MayRetire(w, d) && w.mem.members[d].archive.Some?
    ensures MovesOn(w, d, w.mem.members[d].archive.value.(maxBytes := maxBytes))
  {
    hide Healthy, MayRetire, Known, Stored, CursorAt;
    ArchiveFacts(w, d);
  }

  lemma EnableMoves(w: World, d: Id, maxBytes: nat)
    requires MayRetire(w, d) && w.mem.members[d].archive.None?
    ensures var c := FirstCursor(w.mem.members[d]); MovesOn(w, d, Protection(maxBytes, c, c, c))
  {
    hide Layout, Active, Accounts, Threads, Tails, Live, Of, Here, DurableSeq, CursorAt, Stored;
    MemberReady(w, d);
  }

  lemma ReleaseMoves(w: World, d: Id, through: Cursor)
    requires MayRetire(w, d) && w.mem.members[d].archive.Some? && d in w.past.accepted
    requires w.mem.members[d].archive.value.released.seqNo <= through.seqNo <= |w.past.accepted[d]|
    requires through == CursorAt(w.mem.members[d].archive.value.released, w.past.accepted[d], through.seqNo)
    ensures MovesOn(w, d, w.mem.members[d].archive.value.(released := through))
  {
    hide Healthy, MayRetire, Known, Stored, CursorAt;
    ArchiveFacts(w, d);
  }

  function TailOf(tails: map<Id, seq<Raw>>, d: Id): seq<Raw> { if d in tails then tails[d] else [] }

  lemma HealthyIs(w: World)
    ensures Healthy(w) <==> OnDisk(w) && InMemory(w)
  {
    hide OnDisk, InMemory;
  }

  lemma SweptFieldsOf(w: World)
    requires Healthy(w)
    ensures SameBooks(w, Swept(w))
  {
    hide Healthy, Swept;
    SweptFields(w);
  }

  lemma MaySealNow(w: World, d: Id)
    requires Healthy(w) && d in w.mem.members && !w.mem.members[d].retired && d in w.mem.tails
    requires w.mem.members[d].lsn <= w.mem.durable
    ensures MaySeal(w, d)
  {
    hide Healthy;
  }

  // Between the publication of a manifest and the checkpoint that follows it.
  predicate CheckpointLags(w: World, d: Id) {
    d in w.mem.members && d in w.disk.ledger.manifests && w.mem.members[d].checkpoint != |w.disk.ledger.manifests[d]|
  }

  lemma RegisteredMember(w: World, d: Id)
    requires Healthy(w) && d in w.mem.members
    ensures d in w.disk.ledger.manifests
  {
    hide OnDisk, Active, Accounts, Tails, Known, Live;
    assert d in w.mem.members.Keys;
  }

  lemma MayCheckpointNow(w: World, d: Id)
    requires Healthy(w) && d in w.mem.members && d in w.mem.tails && w.mem.tails[d] == []
    ensures MayCheckpoint(w, d)
  {
    hide Healthy;
  }

  // A database with nothing in its tail is sealed already.
  lemma SealedAll(w: World, d: Id)
    requires Healthy(w) && d in w.mem.tails
    ensures d in w.past.accepted && d in w.disk.ledger.manifests
    ensures w.mem.tails[d] == [] ==> w.disk.ledger.manifests[d] == w.past.accepted[d]
  {
    hide OnDisk, Active, Accounts, Members;
    Sequences.Neutral(w.disk.ledger.manifests[d]);
  }

  lemma SealableFacts(w: World, d: Id)
    requires MaySeal(w, d)
    ensures d in w.mem.members && d in w.mem.tails && OnDisk(w) && Healthy(w)
  {
    hide OnDisk, InMemory;
  }

  lemma SuffixOf(sealed: seq<Raw>, accepted: seq<Raw>, records: seq<Raw>)
    requires sealed <= accepted && (if |accepted| > |sealed| then records == accepted[|sealed|..] else records == [])
    ensures sealed + records == accepted
  {
  }

  lemma ReopenedSame(w: World, d: Id, records: seq<Raw>)
    ensures LogsOf(Reopened(w, d, records)) == LogsOf(w)
  {
    hide Live, Of, DurableSeq;
    SameLogs(w, Reopened(w, d, records));
  }

  // Publishing more of what is durable moves no durable end.
  lemma PublishedLogs(w: World, v: World, d: Id)
    requires MaySeal(w, d) && d in w.past.accepted && d in w.disk.ledger.manifests && d in w.mem.tails
    requires v.owner == w.owner && v.past == w.past
    requires v.disk == w.disk.(ledger := Publish(w.disk.ledger, d, w.disk.ledger.manifests[d] + w.mem.tails[d]))
    ensures OnDisk(v) && LogsOf(v) == LogsOf(w)
  {
    hide OnDisk, MaySeal, LogsOf;
    SealReady(w, d);
    PublishOnDisk(w, d);
    PublishSame(w, d);
    SealableFacts(w, d);
    OpenDisk(Published(w, d), v);
    OpenDisk(w.(disk := w.disk.(ledger := Publish(w.disk.ledger, d, w.past.accepted[d]))), v);
  }

  /**
   Whether a member may be protected under a quota: what is pinned already fits it, or there is
   room for the charge and for the number of a first record.
   */
  predicate HasQuota(w: World, d: Id, maxBytes: nat)
    requires d in w.mem.members
  {
    match w.mem.members[d].archive
    case Some(p) => PinnedBytes(p) <= maxBytes
    case None => w.mem.charged + PROTECTION_CHARGE <= w.options.indexBytes && w.mem.members[d].seqNo != U64_MAX
  }

  predicate Protectable(w: World, d: Id, maxBytes: nat) {
    // From 128 KiB to 8 GiB.
    131_072 <= maxBytes <= 8_589_934_592 && d in w.mem.members && HasQuota(w, d, maxBytes)
  }

  // Who still needs the oldest segment, when it is not the active one.
  function Blockers(w: World): set<Id> {
    if w.mem.segments == [] || w.mem.segments[0].number == w.mem.segment then {} else
    set d | d in w.mem.segments[0].members && (d !in w.mem.members || !Releasable(w.mem.members[d],
                                                                                  w.mem.segments[0].members[d]))
  }

  /** Reclaiming stops only at the active segment or where there are blockers. */
  lemma ReclaimingBlocked(w: World)
    requires Healthy(w)
    ensures Swept(w).mem.segments != []
    ensures Swept(w).mem.segments[0].number == Swept(w).mem.segment || Blockers(Swept(w)) != {}
    ensures |Swept(w).past.segs| == 1 || exists d :: Blocks(Swept(w), d)
  {
    hide Healthy, Swept, Releasable, Needed, Places;
    SweptNeeds(w);
    SweptStops(w);
    SweptFields(w);
    var v := Swept(w);
    if |v.past.segs| > 1 {
      var p :| p in FramesIn(v.past.segs[0]) && Needed(v, p);
      assert Blocks(v, p.frame.id);
    }
    if v.mem.segments[0].number != v.mem.segment {
      var s := v.mem.segments[0];
      var d :| d in s.members && (d !in w.mem.members || !Releasable(w.mem.members[d], s.members[d]));
      assert d in Blockers(v);
    }
  }

  lemma MemberNotAhead(w: World, d: Id)
    requires MayRetire(w, d)
    ensures w.disk.files != [] && w.mem.members[d].lsn <= w.mem.lsn
  {
    hide Layout, Threads, Accounts, Active, Members, Tails, Live, Of, Stored, Before, Here, DurableSeq, Until,
         ArchiveAgrees;
    MemberReady(w, d);
    ActiveBounds(w);
    ThreadBefore(Live(w.past.segs), d, Here(Last(w.past.segs)), w.mem.lsn + 1);
    LastBefore(Of(Live(w.past.segs), d), Here(Last(w.past.segs)), w.mem.lsn + 1);
  }

  lemma LastBefore(t: seq<Placed>, here: Pointer, lsn: nat)
    requires Before(t, here, lsn)
    ensures t != [] ==> Last(t).frame.lsn < lsn
  {
    if t != [] { assert Last(t) in t; }
  }

  lemma SyncedBooks(w: World)
    requires Healthy(w) && w.disk.files != []
    ensures SameBooks(w, Synced(Flushed(w)))
  {
    hide Healthy, WriteTo;
  }

  lemma NotingSame(w: World, d: Id)
    requires d in w.mem.members
    ensures LogsOf(DurableNoted(w, d)) == LogsOf(w)
  {
    hide Live, Of, DurableSeq;
    SameLogs(w, DurableNoted(w, d));
  }

  lemma MemberReported(w: World, d: Id)
    requires MayRetire(w, d)
    ensures d in w.disk.ledger.manifests && DurableOf(w, d) == ReportedSeq(w.mem.members[d], w.mem.durable)
    ensures FramesOf(w, d) != [] ==> Last(FramesOf(w, d)).at == ReportedPointer(w.mem.members[d], w.mem.durable)
  {
    hide Layout, Accounts, Active, Members, Threads, Tails, Live, Of, Stored, DurableSeq, Here;
    MemberReady(w, d);
    ReportExact(Of(Live(w.past.segs), d), d, w.mem.members[d], w.disk.ledger, w.past.accepted, w.mem.durable,
                Here(Last(w.past.segs)));
  }

  lemma MemberDurable(w: World, d: Id)
    requires MayRetire(w, d) && w.mem.members[d].lsn <= w.mem.durable
    ensures d in w.disk.ledger.manifests && d in w.past.accepted
    ensures w.mem.members[d].seqNo == |w.past.accepted[d]| == DurableOf(w, d)
    ensures FramesOf(w, d) != [] ==> Last(FramesOf(w, d)).at == w.mem.members[d].latest
  {
    hide Healthy, Known, Stored, DurableOf, FramesOf;
    MemberReady(w, d);
    MemberReported(w, d);
  }

  lemma MidwayMember(w: World, v: World, d: Id, first: nat, raws: seq<Raw>, i: nat)
    requires i <= |raws| && Midway(w, v, d, first, raws, i)
    ensures d in v.mem.members && !v.mem.members[d].retired && d in v.past.accepted && d in w.mem.members
  {
    hide PlanOf, SameArchive, RawBytes;
  }

  /** One member has taken the first few records of a batch, and no other has changed. */
  predicate Took(a: map<Id, seq<Raw>>, b: map<Id, seq<Raw>>, d: Id, raws: seq<Raw>, k: nat) {
    k <= |raws| && d in a && b == a[d := a[d] + raws[..k]]
  }

  lemma MidwayTook(w: World, v: World, d: Id, first: nat, raws: seq<Raw>, i: nat)
    requires i <= |raws| && Midway(w, v, d, first, raws, i)
    ensures Took(w.past.accepted, v.past.accepted, d, raws, i)
  {
    hide PlanOf, SameArchive, RawBytes;
  }

  lemma MidwayFails(w: World, v: World, d: Id, first: nat, raws: seq<Raw>, i: nat, faulted: bool)
    requires i < |raws| && Midway(w, v, d, first, raws, i) && Healthy(v) && RoomFor(w, d, first, raws)
    ensures d in w.mem.members
    ensures !Accepts(v, d, first + i, raws[i]) ==> !Representable(w, d, raws)
    ensures Rolls(v, FRAME_HEADER + |raws[i]|) && v.mem.segment == U64_MAX ==> !Representable(w, d, raws)
  {
    hide Healthy, Midway, RoomFor, Accepts, Representable, Rolls;
    MidwayMember(w, v, d, first, raws, i);
    if !Accepts(v, d, first + i, raws[i]) || (Rolls(v, FRAME_HEADER + |raws[i]|) && v.mem.segment == U64_MAX) {
      MidwayStops(w, v, d, first, raws, i);
    }
  }

  // The state a batch starts from once its preflight is through.
  lemma BatchReady(w: World, d: Id, first: nat, raws: seq<Raw>)
    requires Healthy(w) && BatchFits(w, d, first, raws) && (d in w.mem.members ==> !w.mem.members[d].retired)
    ensures var v := Trimmed(w, BatchPlan(w, d, raws).growth);
      && Healthy(v) && RoomFor(v, d, first, raws) && v.past.accepted == w.past.accepted
      && v.mem.members == w.mem.members
      && d in v.past.accepted && d in v.mem.members && first + |raws| <= U64_MAX && first == v.mem.members[d].seqNo + 1
      && (Representable(v, d, raws) <==> Representable(w, d, raws))
  {
    hide Healthy, Trimmed, BatchPlan, Representable, RoomFor, FrameFits;
    TrimmedFits(w, d, first, raws);
    OpenRecords(w, d);
  }

  lemma PlanStart(segmentBytes: nat, p: Plan, raws: seq<Raw>)
    ensures PlanOf(segmentBytes, p, raws[..0]) == p
  {
  }

  lemma AcceptsMember(w: World, d: Id, seqNo: nat, raw: Raw)
    requires Accepts(w, d, seqNo, raw)
    ensures d in w.mem.members
  {
    hide Swept, QuotaAllows;
  }

  lemma OpenRecords(w: World, d: Id)
    requires MayRetire(w, d)
    ensures d in w.past.accepted
  {
    hide Healthy, Known, Stored;
    MemberReady(w, d);
  }

  lemma SweptSame(w: World)
    requires Healthy(w)
    ensures Swept(w).past.accepted == w.past.accepted
  {
    hide Healthy, Swept;
    SweptFields(w);
  }

  /** An accepted record is appended to what its member was accepted to hold. */
  lemma AppendedRecords(w: World, d: Id, seqNo: nat, raw: Raw)
    requires Healthy(w) && Accepts(w, d, seqNo, raw)
    ensures d in w.past.accepted ==>
      Appended(w, d, seqNo, raw).past.accepted == w.past.accepted[d := w.past.accepted[d] + [raw]]
  {
    hide Healthy, Swept, Rolled, Spilled, QuotaAllows;
    PreparedSame(w, FRAME_HEADER + |raw|);
  }

  lemma PreparedSame(w: World, length: nat)
    requires Healthy(w) && length <= w.options.bufferBytes
    ensures SameBooks(w, Prepared(w, length)) && Prepared(w, length).past.segs != []
    ensures Prepared(w, length).mem.segments != []
  {
    hide Healthy, Swept, Rolled, Spilled;
    var growth := GrowthOf(w, length);
    SweptKeeps(w);
    SweptFields(w);
    var v := Trimmed(w, growth);
    RolledFields(v, length);
    RolledFiles(v, length);
    SpilledFields(Rolled(v, length), length);
    SpilledSegs(v, length);
  }

  lemma SpilledSegs(w: World, length: nat)
    requires Healthy(w)
    ensures Spilled(Rolled(w, length), length).past.segs != []
  {
    hide OnDisk, Accounts, Members, Tails, Content, Fenced, EncodeHeader, WriteTo;
  }

  // Two growing steps make one.
  lemma GrowsChain(a: World, b: World, c: World)
    requires OnDisk(a) && OnDisk(b) && OnDisk(c) && Grows(LogsOf(a), LogsOf(b)) && Grows(LogsOf(b), LogsOf(c))
    ensures Grows(LogsOf(a), LogsOf(c))
  {
    hide OnDisk, LogsOf, Evolves;
    EvolvesChain(a, b, c);
  }

  lemma EvolvesChain(a: World, b: World, c: World)
    requires OnDisk(a) && OnDisk(b) && OnDisk(c) && Evolves(LogsOf(a), LogsOf(b)) && Evolves(LogsOf(b), LogsOf(c))
    ensures Evolves(LogsOf(a), LogsOf(c))
  {
    hide OnDisk, LogsOf, Evolves;
    LogsSound(a);
    LogsSound(b);
    LogsSound(c);
    EvolvesTrans(LogsOf(a), LogsOf(b), LogsOf(c));
  }

  // Retiring one member and growing after that.
  lemma RetiresChain(a: World, b: World, c: World, d: Id)
    requires OnDisk(a) && OnDisk(b) && OnDisk(c) && Retires(LogsOf(a), LogsOf(b), d) && Grows(LogsOf(b), LogsOf(c))
    ensures Retires(LogsOf(a), LogsOf(c), d)
  {
    hide OnDisk, LogsOf, Evolves;
    EvolvesChain(a, b, c);
  }

  lemma GrowsRetires(a: Logs, b: Logs, d: Id)
    requires Grows(a, b)
    ensures Retires(a, b, d)
  {
    hide Evolves;
  }

  lemma SpilledSame(w: World, v: World, length: nat)
    requires Healthy(w) && v == Spilled(Rolled(w, length), length)
    ensures v.past.accepted == w.past.accepted
  {
    hide Healthy;
    RolledFields(w, length);
  }

  lemma IndexFits(w: World)
    requires Healthy(w)
    ensures w.options.indexBytes <= U64_MAX
  {
    hide OnDisk, Active, Accounts, Members, Tails;
  }

  function Left(due: nat, rolls: bool): nat { if rolls && SEGMENT_CHARGE <= due then due - SEGMENT_CHARGE else due }

  // Everything the push needs to know about its step.
  lemma PushStep(w: World, f: Frame)
    requires MayPush(w, f)
    ensures w.past.segs != [] && w.mem.segments != [] && f.id in w.mem.members && f.id in w.past.accepted
    ensures Healthy(Pushed(w, f)) && Grows(LogsOf(w), LogsOf(Pushed(w, f)))
    ensures |EncodeFrame(f)| == FrameLength(f)
    ensures w.mem.offset + FrameLength(f) <= U64_MAX && w.mem.storage + FrameLength(f) <= U64_MAX && f.lsn <= U64_MAX
    ensures Pushed(w, f) ==
      World(w.options, w.owner,
            Memory(w.mem.segment, w.mem.offset + FrameLength(f), f.lsn, w.mem.durable, w.mem.buffer + EncodeFrame(f),
                   w.mem.storage + FrameLength(f), w.mem.charged + EntryGrowth(w.mem.segments, f.id),
                   w.mem.members[f.id := Noted(w.mem.members[f.id], Placed(f, Pointer(w.mem.segment, w.mem.offset)),
                                               w.mem.durable)],
                   Charged(w.mem.segments, f), Longer(w.mem.tails, f.id, f.raw)),
            w.disk,
            w.past.(segs := ExtendedLast(w.past.segs, f),
                    accepted := w.past.accepted[f.id := w.past.accepted[f.id] + [f.raw]]))
  {
    hide OnDisk, InMemory, MayPush, EncodeFrame, EntryGrowth, Charged, Noted, Longer, ExtendedLast, FrameLength, Here,
         LogsOf, Grows, Put;
    PushCapacity(w, f);
    PushReady(w, f);
    PushKeeps(w, f);
    PushGrows(w, f);
    PushNumbers(w, f);
    EncodedParts(f);
    PutHere(w, f);
  }

  lemma PutHere(w: World, f: Frame)
    requires MayPush(w, f)
    ensures w.past.segs != [] && Put(w.past.segs, f) == Placed(f, Pointer(w.mem.segment, w.mem.offset))
  {
    hide OnDisk, Accounts, Members, Tails, Content, LegalFrame, Size;
  }

  lemma PushNumbers(w: World, f: Frame)
    requires MayPush(w, f)
    ensures w.mem.offset + FrameLength(f) <= U64_MAX && w.mem.storage + FrameLength(f) <= U64_MAX && f.lsn <= U64_MAX
  {
    hide OnDisk, Members, Tails, Content, Size, Storage, Charges, RegistryCharge, Summary, InspectRecord, Fenced;
    LengthWithinStorage(w.past.segs);
  }

  lemma CreateFacts(w: World)
    requires MayRoll(w)
    ensures w.past.segs != [] && w.mem.segment < U64_MAX && w.mem.lsn < U64_MAX && Healthy(w) && OnDisk(w)
  {
    hide Layout, Threads, Accounts, Members, Tails, Content, Fenced;
  }

  lemma HalfCreatedIs(w: World, n: nat)
    requires n <= SEGMENT_HEADER
    ensures var v := HalfCreated(w, n);
      && |EncodeHeader(w.owner, w.mem.segment + 1, w.mem.lsn + 1)| == SEGMENT_HEADER
      && v.owner == w.owner
      && v.disk == w.disk.(
           files := w.disk.files
                    + [File(w.mem.segment + 1, EncodeHeader(w.owner, w.mem.segment + 1, w.mem.lsn + 1)[..n])],
           stable := 0)
      && v.past == w.past.(segs := w.past.segs + [Fresh(w.mem.segment + 1, w.mem.lsn + 1)])
  {
    hide EncodeHeader;
    HeaderLength(w.owner, w.mem.segment + 1, w.mem.lsn + 1);
  }

  lemma CreatedIs(w: World)
    requires w.past.segs != []
    ensures var number, first := w.mem.segment + 1, w.mem.lsn + 1;
      Created(w) == World(w.options, w.owner,
          Memory(number, SEGMENT_HEADER, w.mem.lsn, w.mem.durable, w.mem.buffer, w.mem.storage + SEGMENT_HEADER,
                 w.mem.charged + SEGMENT_CHARGE,
                 w.mem.members, w.mem.segments + [Segment(number, SEGMENT_HEADER, map[])], w.mem.tails),
          w.disk.(files := w.disk.files + [File(number, EncodeHeader(w.owner, number, first))],
                  stable := SEGMENT_HEADER),
          w.past.(segs := w.past.segs + [Fresh(number, first)]))
  {
    hide EncodeHeader;
  }

  lemma ReclaimNone(w: World)
    requires |w.past.segs| == |w.disk.files| == |w.mem.segments|
    ensures Storage(w.past.segs[..0]) == 0 && Charges(w.past.segs[..0]) == 0 && Reclaimed(w, 0) == w
  {
    assert w.past.segs[..0] == [];
    assert w.past.segs[0..] == w.past.segs && w.disk.files[0..] == w.disk.files
      && w.mem.segments[0..] == w.mem.segments;
    assert Numbers(w.past.segs[..0]) == {};
    assert w.disk.boundaries - {} == w.disk.boundaries;
  }

  lemma ReclaimRest(w: World, k: nat, number: nat)
    requires k < |w.past.segs| == |w.disk.files| == |w.mem.segments|
    ensures w.past.segs[k..][1..] == w.past.segs[k + 1..] && w.disk.files[k..][1..] == w.disk.files[k + 1..]
    ensures w.mem.segments[k..][1..] == w.mem.segments[k + 1..]
    ensures w.disk.boundaries - Numbers(w.past.segs[..k]) - {number} ==
        w.disk.boundaries - (Numbers(w.past.segs[..k]) + {number})
  {
    hide Numbers;
  }

  lemma RollBounds(w: World)
    requires Healthy(w)
    ensures w.options.maxBytes <= U64_MAX && w.disk.files != [] && w.past.segs != []
  {
    hide OnDisk, Accounts, Members, Tails, Content, Fenced;
  }

  lemma HalfCreateSame(w: World, n: nat)
    requires n <= SEGMENT_HEADER
    ensures LogsOf(HalfCreated(w, n)) == LogsOf(w)
  {
    hide Live, Of, DurableSeq, EncodeHeader;
    HeaderLength(w.owner, w.mem.segment + 1, w.mem.lsn + 1);
    FreshLive(w.past.segs, w.mem.segment + 1, w.mem.lsn + 1);
    SameLogs(w, HalfCreated(w, n));
  }

  lemma SameRecords(w: World, v: World)
    requires LogsOf(v) == LogsOf(w)
    ensures v.past.accepted == w.past.accepted
  {
    hide DurableOf;
  }

  // The directory half of the invariant does not read the memory.
  lemma OpenDisk(w: World, v: World)
    requires v.owner == w.owner && v.disk == w.disk && v.past == w.past
    ensures OnDisk(v) <==> OnDisk(w)
    ensures LogsOf(v) == LogsOf(w)
    ensures Healthy(w) ==> OnDisk(w)
  {
    hide Layout, Threads, Live, InMemory, Of, DurableSeq;
  }

  lemma HalfSame(w: World, n: nat)
    requires w.disk.files != [] && n <= |w.mem.buffer|
    ensures LogsOf(HalfFlushed(w, n)) == LogsOf(w)
  {
    hide Live, Of, DurableSeq, WriteTo;
    SameLogs(w, HalfFlushed(w, n));
  }

  lemma GrowsSelf(a: Logs)
    ensures Grows(a, a)
  {
  }

  lemma SyncedGrows(w: World)
    requires Healthy(w)
    ensures w.disk.files != [] && Grows(LogsOf(w), LogsOf(Synced(w)))
  {
    hide Layout, Threads, Accounts, Members, Tails, Live, LogsOf, Grows, Content, Fenced, Next;
    SyncOrder(w);
    SyncGrows(w, Synced(w));
  }

  lemma SyncOrder(w: World)
    requires Healthy(w)
    ensures w.past.safe <= w.mem.lsn && w.disk.files != []
  {
    hide Threads, Accounts, Members, Tails, FilesOk, BoundariesOk, SegsOk, Content, Size;
  }
}
