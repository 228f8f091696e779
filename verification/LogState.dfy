/**
 The state of the shared log: what its memory and its directory hold, the history
 they stand for, and the invariant that ties the three together.

 `OnDisk` holds at every moment, also after a fault, and is what recovery starts from.
 `InMemory` holds beside it whenever the log is open and not poisoned.
 */
module LogState {
  import opened Prelude
  import opened FrameFormat
  import opened FrameRun
  import opened LogLayout
  import Crc32

  type Raw = seq<Byte>

  // Position part of an archive cursor.
  datatype Cursor = Cursor(seqNo: nat, offset: nat)
  datatype Protection = Protection(maxBytes: nat, released: Cursor, latest: Cursor, durable: Cursor)
  datatype Authority = Authority(maxBytes: nat, released: Cursor)

  datatype Member = Member(
    retired: bool, checkpoint: nat, latest: Pointer, seqNo: nat, lsn: nat,
    durableSeq: nat, durablePointer: Pointer, archive: Option<Protection>)

  datatype Segment = Segment(number: nat, length: nat, members: map<Id, nat>)
  datatype File = File(number: nat, bytes: seq<Byte>)
  datatype Boundary = Boundary(length: nat, crc: nat, end: nat, next: nat)
  datatype Registration = Registration(id: Id, charge: nat)

  datatype Options = Options(maxBytes: nat, segmentBytes: nat, bufferBytes: nat, indexBytes: nat) {
    predicate Valid() {
      && 256 <= segmentBytes <= U32_MAX && 2 * segmentBytes <= maxBytes <= 1_099_511_627_776
      && 128 <= bufferBytes <= 67_108_864 && 1024 <= indexBytes <= 1_073_741_824
    }
  }

  // The accounted size of one archive authority.
  const PROTECTION_CHARGE: nat := 488

  datatype Memory = Memory(
    segment: nat, offset: nat, lsn: nat, durable: nat, buffer: seq<Byte>, storage: nat, charged: nat,
    members: map<Id, Member>, segments: seq<Segment>, tails: map<Id, seq<Raw>>)

  /** The published authorities: `manifests` holds the records each member has sealed. */
  datatype Ledger = Ledger(
    registry: seq<Registration>, manifests: map<Id, seq<Raw>>,
    retirements: map<Id, nat>, archives: map<Id, Authority>)

  /** The directory; `stable` bytes of the last file survive a crash for certain. */
  datatype Disk = Disk(files: seq<File>, boundaries: map<nat, Boundary>, ledger: Ledger, stable: nat)

  /**
   What happened: the accepted segments, the records each member was accepted to hold,
   the LSN up to which frames are stable, and the archive charges made since the log was
   opened.
   */
  datatype History = History(segs: seq<Seg>, accepted: map<Id, seq<Raw>>, safe: nat, protections: nat)

  datatype World = World(options: Options, owner: Owner, mem: Memory, disk: Disk, past: History)

  function Last<T>(s: seq<T>): T requires s != [] { s[|s| - 1] }

  // --------------------------------------------------------------- the disk

  // A segment that no writer may extend.
  predicate Fenced(s: Seg) { !s.whole || s.junk != [] }

  function BoundaryOf(owner: Owner, s: Seg): Boundary {
    Boundary(Length(s), Crc32.Checksum(Content(owner, s)), End(s), Next(s))
  }

  predicate FilesOk(owner: Owner, files: seq<File>, segs: seq<Seg>, stable: nat) {
    && |files| == |segs|
    && (forall i | 0 <= i < |segs| :: files[i].number == segs[i].number)
    && (forall i | 0 <= i < |segs| - 1 :: files[i].bytes == Content(owner, segs[i]))
    && (segs != [] ==> LastFileOk(owner, Last(files).bytes, Last(segs), stable))
  }

  // The last file may lag behind what was accepted, but not behind what is stable.
  predicate LastFileOk(owner: Owner, bytes: seq<Byte>, s: Seg, stable: nat) {
    && bytes <= Content(owner, s) && stable <= |bytes|
    && (Fenced(s) ==> stable == |bytes| == Length(s))
    && (stable < SEGMENT_HEADER ==> s.frames == [])
  }

  predicate BoundariesOk(owner: Owner, boundaries: map<nat, Boundary>, segs: seq<Seg>) {
    && (forall i | 0 <= i < |segs| :: segs[i].number in boundaries ==>
          Fenced(segs[i]) && boundaries[segs[i].number] == BoundaryOf(owner, segs[i]))
    && (forall i | 0 <= i < |segs| - 1 :: Fenced(segs[i]) ==> segs[i].number in boundaries)
    && (forall n | n in boundaries :: segs != [] && segs[0].number <= n <= Last(segs).number)
  }

  predicate StableOk(segs: seq<Seg>, stable: nat, safe: nat) {
    if segs == [] then safe == 0 else
    var s := Last(segs);
    && s.first <= safe + 1 <= Next(s)
    && (stable < SEGMENT_HEADER && |segs| == 1 ==> s.first == 1)
    && (s.first <= safe ==> SEGMENT_HEADER + Size(s.frames[..safe + 1 - s.first]) <= stable)
  }

  predicate RegistryOk(ledger: Ledger) {
    var registry, manifests := ledger.registry, ledger.manifests;
    && ledger.retirements.Keys <= manifests.Keys && ledger.archives.Keys <= manifests.Keys
    && (forall d | d in manifests :: |manifests[d]| <= U64_MAX)
    && (forall i, j | 0 <= i < j < |registry| :: registry[i].id != registry[j].id)
    && (forall i | 0 <= i < |registry| :: registry[i].id in manifests)
    && (forall d | d in manifests :: exists i | 0 <= i < |registry| :: registry[i].id == d)
  }

  predicate AllRegistered(ps: seq<Placed>, manifests: map<Id, seq<Raw>>) {
    forall p | p in ps :: p.frame.id in manifests
  }

  // Below this no frame of the member is needed any more.
  function Keep(ledger: Ledger, d: Id): nat
    requires d in ledger.manifests
  {
    var sealed := |ledger.manifests[d]|;
    if d in ledger.archives && ledger.archives[d].released.seqNo < sealed then ledger.archives[d].released.seqNo
    else sealed
  }

  /** The thread of a member carries its accepted records above `keep`, and the sealed ones are stable. */
  predicate Carries(t: seq<Placed>, accepted: seq<Raw>, checkpoint: nat, keep: nat, safe: nat) {
    && keep <= checkpoint <= |accepted|
    && (t == [] ==> |accepted| == keep)
    && (t != [] ==> t[0].frame.seqNo <= keep + 1 && Last(t).frame.seqNo == |accepted|)
    && (forall p | p in t ::
          && 1 <= p.frame.seqNo <= |accepted| && p.frame.raw == accepted[p.frame.seqNo - 1]
          && (p.frame.seqNo <= checkpoint ==> p.frame.lsn <= safe))
  }

  function RawBytes(raws: seq<Raw>): nat {
    if raws == [] then 0 else RawBytes(raws[..|raws| - 1]) + |Last(raws)|
  }

  function CursorAt(released: Cursor, accepted: seq<Raw>, seqNo: nat): Cursor
    requires released.seqNo <= seqNo <= |accepted|
  {
    Cursor(seqNo, released.offset + RawBytes(accepted[released.seqNo..seqNo]))
  }

  // The archive of these records has a representable end.
  predicate CursorFits(released: Cursor, accepted: seq<Raw>) {
    released.seqNo <= |accepted| && CursorAt(released, accepted, |accepted|).offset <= U64_MAX
  }

  // Last sequence number of a member that is sealed or stable in the log.
  function DurableSeq(t: seq<Placed>, checkpoint: nat, safe: nat): nat { LastSeq(Until(t, safe), checkpoint) }

  predicate Stored(t: seq<Placed>, d: Id, ledger: Ledger, accepted: map<Id, seq<Raw>>, safe: nat) {
    && Thread(t) && d in ledger.manifests
    && if d in ledger.retirements then
         d !in accepted && forall p | p in t :: p.frame.seqNo <= ledger.retirements[d]
       else
         && d in accepted && ledger.manifests[d] <= accepted[d]
         && Carries(t, accepted[d], |ledger.manifests[d]|, Keep(ledger, d), safe)
         && (d in ledger.archives ==>
               && ledger.archives[d].released.seqNo <= DurableSeq(t, |ledger.manifests[d]|, safe)
               && CursorFits(ledger.archives[d].released, accepted[d]))
  }

  predicate Layout(owner: Owner, disk: Disk, past: History) {
    && SegsOk(past.segs)
    && FilesOk(owner, disk.files, past.segs, disk.stable)
    && BoundariesOk(owner, disk.boundaries, past.segs)
    && StableOk(past.segs, disk.stable, past.safe)
  }

  predicate Threads(ledger: Ledger, live: seq<Placed>, accepted: map<Id, seq<Raw>>, safe: nat) {
    && RegistryOk(ledger)
    && AllRegistered(live, ledger.manifests)
    && (forall d | d in accepted :: d in ledger.manifests)
    && (forall d | d in ledger.manifests :: Stored(Of(live, d), d, ledger, accepted, safe))
  }

  predicate OnDisk(w: World) {
    Layout(w.owner, w.disk, w.past) && Threads(w.disk.ledger, Live(w.past.segs), w.past.accepted, w.past.safe)
  }

  // -------------------------------------------------------------- in memory

  function SegmentOf(s: Seg): Segment { Segment(s.number, Length(s), Summary(s.frames)) }

  predicate Active(options: Options, owner: Owner, mem: Memory, files: seq<File>, stable: nat, past: History) {
    && past.segs != [] && files != []
    && var s := Last(past.segs);
    && !Fenced(s)
    && mem.segment == s.number && mem.offset == Length(s)
    && mem.lsn + 1 == Next(s) && mem.lsn <= U64_MAX
    && mem.durable == past.safe
    && Last(files).bytes + mem.buffer == Content(owner, s)
    && SEGMENT_HEADER <= stable
    && |mem.buffer| <= options.bufferBytes
    && (mem.durable == mem.lsn ==> mem.buffer == [])
  }

  function RegistryCharge(registry: seq<Registration>): nat {
    if registry == [] then 0 else RegistryCharge(registry[..|registry| - 1]) + Last(registry).charge
  }

  predicate SegmentsAgree(segments: seq<Segment>, segs: seq<Seg>) {
    |segments| == |segs| && forall i | 0 <= i < |segs| :: segments[i] == SegmentOf(segs[i])
  }

  /** Storage and index charges are exact and within their budgets. */
  predicate Accounts(
    options: Options, storage: nat, charged: nat, segments: seq<Segment>,
    registry: seq<Registration>, segs: seq<Seg>, protections: nat)
  {
    && SegmentsAgree(segments, segs)
    && storage == Storage(segs) <= options.maxBytes
    && charged == RegistryCharge(registry) + protections + Charges(segs) <= options.indexBytes
  }

  predicate ArchiveAgrees(archive: Option<Protection>, d: Id, ledger: Ledger, accepted: seq<Raw>, pending: bool,
                          durableSeq: nat) {
    match archive
    case None => d !in ledger.archives
    case Some(p) =>
      && d in ledger.archives && p.maxBytes == ledger.archives[d].maxBytes && p.released == ledger.archives[d].released
      && p.released.seqNo <= |accepted| && p.latest == CursorAt(p.released, accepted, |accepted|)
      && p.latest.offset <= U64_MAX
      && (pending ==> p.released.seqNo <= durableSeq <= |accepted|)
      && (pending ==> p.durable == CursorAt(p.released, accepted, durableSeq))
  }

  predicate Encodable(p: Pointer) { p.segment <= U64_MAX && p.offset <= U64_MAX }

  // The checkpoint in memory may lag behind the published manifest: sealing is several steps.
  predicate Known(t: seq<Placed>, d: Id, m: Member, ledger: Ledger, accepted: map<Id, seq<Raw>>, durable: nat,
                  here: Pointer) {
    && d in ledger.manifests
    && (m.retired <==> d in ledger.retirements)
    && (m.latest == NOWHERE || Below(m.latest, here)) && Encodable(m.latest)
    && (!m.retired ==>
         && (if t == [] then m.lsn <= durable else m.latest == Last(t).at && m.lsn == Last(t).frame.lsn)
         && d in accepted && m.checkpoint <= |ledger.manifests[d]| && m.seqNo == |accepted[d]| <= U64_MAX
         && (m.lsn > durable ==>
              && m.durableSeq == DurableSeq(t, |ledger.manifests[d]|, durable)
              && (Until(t, durable) != [] ==> m.durablePointer == Last(Until(t, durable)).at))
         && ArchiveAgrees(m.archive, d, ledger, accepted[d], m.lsn > durable, m.durableSeq))
  }

  predicate Members(members: map<Id, Member>, live: seq<Placed>, ledger: Ledger, accepted: map<Id, seq<Raw>>,
                    durable: nat, here: Pointer) {
    && members.Keys == ledger.manifests.Keys
    && (forall d | d in members :: Known(Of(live, d), d, members[d], ledger, accepted, durable, here))
  }

  // An open database holds the records above its sealed prefix.
  predicate Tails(tails: map<Id, seq<Raw>>, manifests: map<Id, seq<Raw>>, accepted: map<Id, seq<Raw>>) {
    forall d | d in tails :: d in accepted && d in manifests && manifests[d] + tails[d] == accepted[d]
  }

  predicate InMemory(w: World) {
    && w.options.Valid()
    && Active(w.options, w.owner, w.mem, w.disk.files, w.disk.stable, w.past)
    && Accounts(w.options, w.mem.storage, w.mem.charged, w.mem.segments, w.disk.ledger.registry, w.past.segs,
                w.past.protections)
    && Members(w.mem.members, Live(w.past.segs), w.disk.ledger, w.past.accepted, w.mem.durable, Here(Last(w.past.segs)))
    && Tails(w.mem.tails, w.disk.ledger.manifests, w.past.accepted)
  }
}
