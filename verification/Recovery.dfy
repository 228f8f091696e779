/** The loops of recovery, each proved equal to the scan functions on every input. */
module Recovery {
  import opened Prelude
  import opened FrameFormat
  import opened FrameRun
  import opened LogLayout
  import opened LogState
  import opened LogScan
  import opened LogOpen
  import Crc32
  import Sequences

  // --------------------------------------------------------------- registry

  function AllLoaded(ledger: Ledger): map<Id, Member> { map d | d in ledger.manifests :: Loaded(ledger, d) }

  lemma {:induction false} BaseGrows(ledger: Ledger, registry: seq<Registration>, i: nat, j: nat)
    requires i <= j <= |registry|
    ensures BaseCharge(ledger, registry[..i]) <= BaseCharge(ledger, registry[..j])
    decreases j
  {
    if i < j {
      hide LoadCharge;
      BaseGrows(ledger, registry, i, j - 1);
      BaseNext(ledger, registry, j - 1);
    }
  }

  lemma BaseNext(ledger: Ledger, registry: seq<Registration>, i: nat)
    requires i < |registry|
    ensures BaseCharge(ledger, registry[..i + 1]) == BaseCharge(ledger, registry[..i]) + LoadCharge(ledger, registry[i])
  {
    hide LoadCharge;
    assert registry[..i + 1][..i] == registry[..i] && Last(registry[..i + 1]) == registry[i];
  }

  /** Loads every registered member; it fails exactly when their charges exceed the index budget. */
  method LoadRegistry(ledger: Ledger, options: Options) returns (r: Result<(map<Id, Member>, nat)>)
    requires RegistryOk(ledger)
    ensures r.Ok? <==> BaseCharge(ledger, ledger.registry) <= options.indexBytes
    ensures r.Ok? ==> r.value == (AllLoaded(ledger), BaseCharge(ledger, ledger.registry))
  {
    hide Loaded, BaseCharge, LoadCharge, RegistryOk, AllLoaded;
    var members: map<Id, Member> := map[];
    var charged := 0;
    BaseNone(ledger, ledger.registry);
    for i := 0 to |ledger.registry|
      invariant charged == BaseCharge(ledger, ledger.registry[..i]) && (i > 0 ==> charged <= options.indexBytes)
      invariant forall d | d in members :: members[d] == Loaded(ledger, d) && d in ledger.manifests
      invariant forall j | 0 <= j < i :: ledger.registry[j].id in members
    {
      var registration := ledger.registry[i];
      BaseNext(ledger, ledger.registry, i);
      RegisteredAt(ledger, i);
      charged := charged + LoadCharge(ledger, registration);
      if charged > options.indexBytes {
        BaseGrows(ledger, ledger.registry, i + 1, |ledger.registry|);
        Sequences.Neutral(ledger.registry);
        return Err(Limit);
      }
      members := members[registration.id := Loaded(ledger, registration.id)];
    }
    Sequences.Neutral(ledger.registry);
    LoadedAll(ledger, members);
    return Ok((members, charged));
  }

  lemma BaseNone(ledger: Ledger, registry: seq<Registration>)
    ensures BaseCharge(ledger, registry[..0]) == 0
  {
  }

  lemma RegisteredAt(ledger: Ledger, i: nat)
    requires RegistryOk(ledger) && i < |ledger.registry|
    ensures ledger.registry[i].id in ledger.manifests
  {
  }

  lemma LoadedAll(ledger: Ledger, members: map<Id, Member>)
    requires RegistryOk(ledger)
    requires forall d | d in members :: members[d] == Loaded(ledger, d) && d in ledger.manifests
    requires forall j | 0 <= j < |ledger.registry| :: ledger.registry[j].id in members
    ensures members == AllLoaded(ledger)
  {
    hide Loaded;
    forall d | d in ledger.manifests ensures d in members {
      var i :| 0 <= i < |ledger.registry| && ledger.registry[i].id == d;
    }
  }

  // ------------------------------------------------------------------ files

  /** The reading loop of one segment file. */
  method ScanFrames(options: Options, number: nat, bytes: seq<Byte>, end: nat, start: Sweep) returns (r: Result<Sweep>)
    requires start.offset <= end <= |bytes|
    ensures r == SweepFrames(options, number, bytes, end, start)
  {
    hide Inspect, Admit, SweepFrame, Crc32.Checksum;
    var s := start;
    while s.offset < end
      invariant s.offset <= end
        && SweepFrames(options, number, bytes, end, s) == SweepFrames(options, number, bytes, end, start)
      decreases end - s.offset
    {
      var rest := bytes[s.offset..end];
      if Unfinished(rest) { return Ok(s); }
      var length := FrameLen(rest[..4]).value;
      var frame :- Inspect(rest[..length]);
      InspectedLength(rest[..length]);
      var next :- SweepFrame(options, number, s, frame);
      SweepAdvances(options, number, s, frame);
      s := next;
    }
    NothingUnfinished(bytes[s.offset..end]);
    return Ok(s);
  }

  lemma NothingUnfinished(rest: seq<Byte>)
    ensures rest == [] ==> Unfinished(rest)
  {
  }

  lemma SweepAdvances(options: Options, number: nat, s: Sweep, f: Frame)
    ensures SweepFrame(options, number, s, f).Ok? ==>
      SweepFrame(options, number, s, f).value.offset == s.offset + FrameLength(f)
  {
    hide Admit, FrameLength;
  }

  // A file with a complete header.
  method ReadSegment(owner: Owner, options: Options, file: File, evidence: Option<Boundary>, final: bool, p: Progress)
    returns (r: Result<Progress>)
    requires file.number <= U64_MAX && SEGMENT_HEADER <= |file.bytes|
    requires evidence.Some? ==> SEGMENT_HEADER <= evidence.value.end <= |file.bytes|
    ensures r == ScanWhole(owner, options, file, evidence, final, p)
  {
    hide InspectHeader, SweepFrames, Crc32.Checksum;
    var length := |file.bytes|;
    var end := if evidence.Some? then evidence.value.end else length;
    var first :- InspectHeader(file.bytes[..SEGMENT_HEADER], owner, file.number);
    if p.next.Some? && p.next.value != first { return Err(Corruption); }
    var s :- ScanFrames(options, file.number, file.bytes, end,
                        Sweep(p.members, map[], p.charged, first, SEGMENT_HEADER));
    var rotate, fence := p.rotate || (final && evidence.Some?), p.fence;
    if s.offset < end {
      if !final || evidence.Some? { return Err(Corruption); }
      fence := Some(Boundary(length, Crc32.Checksum(file.bytes), s.offset, s.next));
      rotate := true;
    }
    if evidence.Some? && evidence.value.next != s.next { return Err(Corruption); }
    return Ok(Progress(s.members, s.charged, p.storage, Some(s.next),
                       p.segments + [Segment(file.number, length, s.entries)], rotate, fence));
  }

  // What a scan starts from.
  function Begin(members: map<Id, Member>, charged: nat): Progress {
    Progress(members, charged, 0, None, [], false, None)
  }

  /** The scan of a whole directory, file after file. */
  method ScanLog(owner: Owner, options: Options, boundaries: map<nat, Boundary>, files: seq<File>, members: map<Id,
                 Member>, charged: nat)
    returns (r: Result<Progress>)
    requires forall i | 0 <= i < |files| :: files[i].number <= U64_MAX
    ensures r == if |files| > options.indexBytes / SEGMENT_CHARGE then Err(Limit)
                 else ScanFiles(owner, options, boundaries, files, 0, Begin(members, charged))
  {
    hide ScanWhole, ScanEmpty, CheckBoundary;
    if |files| > options.indexBytes / SEGMENT_CHARGE { return Err(Limit); }
    var p := Begin(members, charged);
    for k := 0 to |files|
      invariant ScanFiles(owner, options, boundaries, files, k, p) == ScanFiles(owner, options, boundaries, files, 0,
                                                                                Begin(members, charged))
    {
      if k > 0 && files[k - 1].number + 1 != files[k].number { return Err(Corruption); }
      var file := files[k];
      var final := k + 1 == |files|;
      var storage :- Add(p.storage, |file.bytes|);
      if storage > options.maxBytes { return Err(Limit); }
      var evidence :- CheckBoundary(boundaries, file);
      var total :- Add(p.charged, SEGMENT_CHARGE);
      p := p.(storage := storage, charged := total);
      CheckedBoundary(boundaries, file);
      if (evidence.Some? && evidence.value.end == 0) || |file.bytes| < SEGMENT_HEADER {
        p :- ScanEmpty(file, evidence, final, p);
      } else {
        p :- ReadSegment(owner, options, file, evidence, final, p);
      }
    }
    return Ok(p);
  }

  lemma CheckedBoundary(boundaries: map<nat, Boundary>, file: File)
    ensures CheckBoundary(boundaries, file).Ok? && CheckBoundary(boundaries, file).value.Some? ==>
      var b := CheckBoundary(boundaries, file).value.value;
      b.end <= |file.bytes| && (b.end != 0 ==> SEGMENT_HEADER <= b.end)
  {
    hide Crc32.Checksum;
  }

  /** What was read of a member, or its checkpoint where that is ahead; all of it is durable. */
  predicate Settles(m: Member, r: Member) {
    && r.retired == m.retired && r.checkpoint == m.checkpoint && r.lsn == m.lsn
    && r.seqNo == r.durableSeq == (if m.checkpoint > m.seqNo then m.checkpoint else m.seqNo)
    && r.latest == r.durablePointer == (if m.checkpoint > m.seqNo then NOWHERE else m.latest)
    && r.archive.Some? == m.archive.Some?
    && (r.archive.Some? ==>
          && r.archive.value == m.archive.value.(durable := m.archive.value.latest)
          && r.archive.value.latest.seqNo == r.seqNo)
  }

  lemma FinishedSettles(m: Member)
    ensures Finished(m).Ok? ==> Settles(m, Finished(m).value)
  {
  }

  /** Finishes every member, or fails on the first whose archive anchor is missing. */
  method FinishMembers(shown: map<Id, Member>) returns (r: Result<map<Id, Member>>)
    ensures r.Ok? <==> forall d | d in shown :: Finished(shown[d]).Ok?
    ensures r.Ok? ==> AllFinished(shown, r.value)
    ensures r.Ok? ==> forall d | d in shown :: d in r.value && Settles(shown[d], r.value[d])
  {
    forall d | d in shown { FinishedSettles(shown[d]); }
    hide Finished, Settles;
    var members: map<Id, Member> := map[];
    var todo := shown.Keys;
    while todo != {}
      invariant todo <= shown.Keys && members.Keys == shown.Keys - todo
      invariant forall d | d in members :: d in shown && Finished(shown[d]) == Ok(members[d])
      decreases |todo|
    {
      var d :| d in todo;
      var member :- Finished(shown[d]);
      members := members[d := member];
      todo := todo - {d};
    }
    return Ok(members);
  }
}
