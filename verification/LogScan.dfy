/**
 Recovery as a function of what the directory holds: the checks a frame, a file and
 the whole log must pass, and the progress they leave behind.
 */
module LogScan {
  import opened Prelude
  import opened FrameFormat
  import opened FrameRun
  import opened LogLayout
  import opened LogState
  import Crc32

  function Add(a: nat, b: nat): Result<nat> { if a + b <= U64_MAX then Ok(a + b) else Err(Corruption) }

  // ------------------------------------------------------------ the registry

  function Loaded(ledger: Ledger, d: Id): Member {
    if d in ledger.retirements then
      var seqNo := ledger.retirements[d];
      Member(true, seqNo, NOWHERE, seqNo, 0, seqNo, NOWHERE, None)
    else
      var sealed := if d in ledger.manifests then |ledger.manifests[d]| else 0;
      Member(false, sealed, NOWHERE, sealed, 0, sealed, NOWHERE,
             if d in ledger.archives then
               var a := ledger.archives[d];
               Some(Protection(a.maxBytes, a.released, a.released, a.released))
             else None)
  }

  function LoadCharge(ledger: Ledger, r: Registration): nat {
    r.charge + (if r.id !in ledger.retirements && r.id in ledger.archives then PROTECTION_CHARGE else 0)
  }

  // ---------------------------------------------------------------- frames

  function Replayed(archive: Option<Protection>, seqNo: nat, raw: Raw): Result<Option<Protection>> {
    match archive
    case None => Ok(None)
    case Some(p) =>
      if seqNo <= p.released.seqNo then Ok(archive) else
      var offset :- Add(p.latest.offset, |raw|);
      if p.latest.seqNo + 1 != seqNo then Err(Corruption) else Ok(Some(p.(latest := Cursor(seqNo, offset))))
  }

  /** Whether a frame may follow what its member has shown so far. */
  function Admit(m: Member, f: Frame, at: Pointer): Result<Member> {
    if m.retired && f.seqNo > m.checkpoint then Err(Corruption) else
    var bound :- Add(if m.latest == NOWHERE then m.checkpoint else m.seqNo, 1);
    if m.latest == NOWHERE && (f.seqNo > bound || (f.previous != NOWHERE && !Below(f.previous, at)))
    then Err(Corruption) else
    if m.latest != NOWHERE && (f.seqNo != bound || f.previous != m.latest) then Err(Corruption) else
    var archive :- Replayed(m.archive, f.seqNo, f.raw);
    Ok(m.(latest := at, seqNo := f.seqNo, lsn := f.lsn, archive := archive))
  }

  datatype Sweep = Sweep(members: map<Id, Member>, entries: map<Id, nat>, charged: nat, next: nat, offset: nat)

  function SweepFrame(options: Options, number: nat, s: Sweep, f: Frame): Result<Sweep> {
    if f.lsn != s.next || f.id !in s.members then Err(Corruption) else
    var m :- Admit(s.members[f.id], f, Pointer(number, s.offset));
    var charged :- Add(s.charged, if f.id in s.entries then 0 else ENTRY_CHARGE);
    if charged > options.indexBytes then Err(Limit) else
    var offset :- Add(s.offset, FrameLength(f));
    var next :- Add(s.next, 1);
    Ok(Sweep(s.members[f.id := m], s.entries[f.id := f.seqNo], charged, next, offset))
  }

  /** Reads frames up to `end` or to the first unfinished one. */
  function SweepFrames(options: Options, number: nat, bytes: seq<Byte>, end: nat, s: Sweep): (r: Result<Sweep>)
    requires s.offset <= end <= |bytes|
    ensures r.Ok? ==> s.offset <= r.value.offset <= end
    ensures r.Ok? && s.next <= U64_MAX ==> r.value.next <= U64_MAX
    decreases end - s.offset
  {
    var rest := bytes[s.offset..end];
    if Unfinished(rest) then Ok(s) else
    var length := FrameLen(rest[..4]).value;
    var f :- Inspect(rest[..length]);
    var next :- SweepFrame(options, number, s, f);
    InspectedLength(rest[..length]);
    SweepFrames(options, number, bytes, end, next)
  }

  lemma InspectedLength(bytes: seq<Byte>)
    requires Inspect(bytes).Ok?
    ensures FrameLength(Inspect(bytes).value) == |bytes|
  {
    hide ReadU32, ReadU64, InspectRecord, Crc32.Checksum;
  }

  // ------------------------------------------------------------------ files

  function CheckBoundary(boundaries: map<nat, Boundary>, file: File): Result<Option<Boundary>> {
    if file.number !in boundaries then Ok(None) else
    var b := boundaries[file.number];
    if b.length != |file.bytes| || b.crc != Crc32.Checksum(file.bytes) then Err(Corruption) else
    if b.end > b.length || (b.end != 0 && b.end < SEGMENT_HEADER) || b.next == 0 then Err(Corruption) else Ok(Some(b))
  }

  // `fence` is the boundary that the scan publishes for a torn last file.
  datatype Progress = Progress(
    members: map<Id, Member>, charged: nat, storage: nat, next: Option<nat>,
    segments: seq<Segment>, rotate: bool, fence: Option<Boundary>)

  function ScanEmpty(file: File, evidence: Option<Boundary>, final: bool, p: Progress): Result<Progress> {
    if !final && evidence.None? then Err(Corruption) else
    var next := if p.next.Some? then p.next.value else 1;
    if evidence.Some? && (evidence.value.end != 0 || evidence.value.next != next) then Err(Corruption) else
    var length := |file.bytes|;
    Ok(p.(next := Some(next), rotate := final, segments := p.segments + [Segment(file.number, length, map[])],
          fence := if evidence.None? then Some(Boundary(length, Crc32.Checksum(file.bytes), 0, next)) else p.fence))
  }

  function ScanWhole(owner: Owner, options: Options, file: File, evidence: Option<Boundary>, final: bool,
                     p: Progress): Result<Progress>
    requires file.number <= U64_MAX && SEGMENT_HEADER <= |file.bytes|
    requires evidence.Some? ==> SEGMENT_HEADER <= evidence.value.end <= |file.bytes|
  {
    var length := |file.bytes|;
    var end := if evidence.Some? then evidence.value.end else length;
    var first :- InspectHeader(file.bytes[..SEGMENT_HEADER], owner, file.number);
    if p.next.Some? && p.next.value != first then Err(Corruption) else
    var s :- SweepFrames(options, file.number, file.bytes, end,
                         Sweep(p.members, map[], p.charged, first, SEGMENT_HEADER));
    var torn := s.offset < end;
    if torn && (!final || evidence.Some?) then Err(Corruption) else
    if evidence.Some? && evidence.value.next != s.next then Err(Corruption) else
    Ok(Progress(s.members, s.charged, p.storage, Some(s.next), p.segments + [Segment(file.number, length, s.entries)],
                p.rotate || torn || (final && evidence.Some?),
                if torn then Some(Boundary(length, Crc32.Checksum(file.bytes), s.offset, s.next)) else p.fence))
  }

  function ScanFile(owner: Owner, options: Options, boundaries: map<nat, Boundary>, file: File, final: bool,
                    p: Progress): Result<Progress>
    requires file.number <= U64_MAX
  {
    var storage :- Add(p.storage, |file.bytes|);
    if storage > options.maxBytes then Err(Limit) else
    var evidence :- CheckBoundary(boundaries, file);
    var charged :- Add(p.charged, SEGMENT_CHARGE);
    var q := p.(storage := storage, charged := charged);
    if (evidence.Some? && evidence.value.end == 0) || |file.bytes| < SEGMENT_HEADER
    then ScanEmpty(file, evidence, final, q)
    else ScanWhole(owner, options, file, evidence, final, q)
  }

  // The log from its k-th file on.
  function ScanFiles(owner: Owner, options: Options, boundaries: map<nat, Boundary>, files: seq<File>, k: nat,
                     p: Progress): Result<Progress>
    requires k <= |files| && forall i | 0 <= i < |files| :: files[i].number <= U64_MAX
    decreases |files| - k
  {
    if k == |files| then Ok(p) else
    if k > 0 && files[k - 1].number + 1 != files[k].number then Err(Corruption) else
    var q :- ScanFile(owner, options, boundaries, files[k], k + 1 == |files|, p);
    ScanFiles(owner, options, boundaries, files, k + 1, q)
  }

  // ----------------------------------------------------------------- the end

  /** What memory keeps of a member once its frames are read. */
  function Finished(m: Member): Result<Member> {
    var n := if m.seqNo < m.checkpoint then m.(seqNo := m.checkpoint, latest := NOWHERE) else m;
    var r := n.(durableSeq := n.seqNo, durablePointer := n.latest);
    match r.archive
    case None => Ok(r)
    case Some(p) => if p.latest.seqNo != r.seqNo then Err(Corruption)
    else Ok(r.(archive := Some(p.(durable := p.latest))))
  }
}
