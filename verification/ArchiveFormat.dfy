/**
 The bytes of an archive: cursors, archived records and chunks of them, and the digest
 chain that ties a chunk's records to its two ends.

 The hash is a parameter. Reading accepts exactly the encodings of chunks whose records
 follow each other; two different chunks between the same cursors show a collision.
 */
module ArchiveFormat {
  import opened Prelude
  import opened LittleEndian
  import FrameFormat
  import Sequences

  const CURSOR_BYTES: nat := 120
  const MAX_CHUNK_BYTES: nat := 4_194_304
  const FIRST_OFFSET: nat := 32
  const MIN_RECORD: nat := 16
  const MAX_RECORD: nat := 65_552

  // "LSAC" and "LSEX", version 2.
  const CURSOR_MAGIC: seq<Byte> := [76, 83, 65, 67, 2, 0, 0, 0]
  const CHUNK_MAGIC: seq<Byte> := [76, 83, 69, 88, 2, 0, 0, 0]

  type Uuid = b: seq<Byte> | |b| == 16 witness seq(16, _ => 0)
  type Digest = b: seq<Byte> | |b| == 32 witness seq(32, _ => 0)
  type Hash = seq<Byte> -> Digest

  /** A boundary between two records of one history. */
  datatype ArchiveCursor = ArchiveCursor(
    database: Uuid, generation: Uuid, branch: Uuid, epoch: U64, segment: U64, offset: U64, seqNo: U64, digest: Digest)

  /** A record and where its history says it ends. */
  datatype Record = Record(epoch: U64, segment: U64, offset: U64, raw: seq<Byte>)

  datatype ExportChunk = ExportChunk(start: ArchiveCursor, end: ArchiveCursor, records: seq<Byte>)

  predicate Legal(c: ArchiveCursor) { c.segment > 0 && c.offset >= FIRST_OFFSET }

  predicate Storable(r: Record) { MIN_RECORD <= |r.raw| <= MAX_RECORD }

  predicate AllStorable(rs: seq<Record>) { forall i | 0 <= i < |rs| :: Storable(rs[i]) }

  // ---------------------------------------------------------------- encoding

  function Identity(c: ArchiveCursor): seq<Byte> { c.database + c.generation + c.branch }

  function Position(epoch: U64, segment: U64, offset: U64): seq<Byte> { Le(epoch, 8) + Le(segment, 8) + Le(offset, 8) }

  function CursorBytes(c: ArchiveCursor): seq<Byte> {
    CURSOR_MAGIC + Identity(c) + Position(c.epoch, c.segment, c.offset) + (Le(c.seqNo, 8) + c.digest)
  }

  function RecordBytes(r: Record): seq<Byte>
    requires Storable(r)
  {
    Position(r.epoch, r.segment, r.offset) + Le(|r.raw|, 4) + r.raw
  }

  function Stream(rs: seq<Record>): seq<Byte>
    requires AllStorable(rs)
  {
    if rs == [] then [] else RecordBytes(rs[0]) + Stream(rs[1..])
  }

  function ToBytes(c: ExportChunk): seq<Byte> { CHUNK_MAGIC + CursorBytes(c.start) + CursorBytes(c.end) + c.records }

  // Parts of equal length are equal one by one.
  lemma Apart<T>(a: seq<T>, b: seq<T>, c: seq<T>, d: seq<T>)
    requires |a| == |c| && a + b == c + d
    ensures a == c && b == d
  {
    assert a == (a + b)[..|a|] && c == (c + d)[..|c|];
    assert b == (a + b)[|a|..] && d == (c + d)[|c|..];
  }

  lemma SameNumber(m: U64, n: U64)
    ensures |Le(m, 8)| == 8 && (Le(m, 8) == Le(n, 8) ==> m == n)
  {
    FrameFormat.Le8(m);
    FrameFormat.Le8(n);
  }

  lemma PositionApart(epoch: U64, segment: U64, offset: U64, e: U64, s: U64, o: U64)
    ensures |Position(epoch, segment, offset)| == 24
    ensures Position(epoch, segment, offset) == Position(e, s, o) ==> epoch == e && segment == s && offset == o
  {
    SameNumber(epoch, e);
    SameNumber(segment, s);
    SameNumber(offset, o);
    SameNumber(e, epoch);
    SameNumber(s, segment);
    SameNumber(o, offset);
    hide Le;
    if Position(epoch, segment, offset) == Position(e, s, o) {
      Apart(Le(epoch, 8) + Le(segment, 8), Le(offset, 8), Le(e, 8) + Le(s, 8), Le(o, 8));
      Apart(Le(epoch, 8), Le(segment, 8), Le(e, 8), Le(s, 8));
    }
  }

  lemma CursorLength(c: ArchiveCursor)
    ensures |CursorBytes(c)| == CURSOR_BYTES && CursorBytes(c)[..8] == CURSOR_MAGIC
  {
    SameNumber(c.seqNo, c.seqNo);
    PositionApart(c.epoch, c.segment, c.offset, 0, 0, 0);
    hide Le, Position;
  }

  /** A cursor is determined by its bytes. */
  lemma CursorApart(c: ArchiveCursor, d: ArchiveCursor)
    requires CursorBytes(c) == CursorBytes(d)
    ensures c == d
  {
    SameNumber(c.seqNo, d.seqNo);
    SameNumber(d.seqNo, c.seqNo);
    PositionApart(c.epoch, c.segment, c.offset, d.epoch, d.segment, d.offset);
    PositionApart(d.epoch, d.segment, d.offset, c.epoch, c.segment, c.offset);
    hide Le, Position;
    var p, q := Position(c.epoch, c.segment, c.offset), Position(d.epoch, d.segment, d.offset);
    var a, b := CURSOR_MAGIC + Identity(c), CURSOR_MAGIC + Identity(d);
    Apart(a + p, Le(c.seqNo, 8) + c.digest, b + q, Le(d.seqNo, 8) + d.digest);
    Apart(a, p, b, q);
    Apart(CURSOR_MAGIC, Identity(c), CURSOR_MAGIC, Identity(d));
    Apart(c.database + c.generation, c.branch, d.database + d.generation, d.branch);
    Apart(c.database, c.generation, d.database, d.generation);
    Apart(Le(c.seqNo, 8), c.digest, Le(d.seqNo, 8), d.digest);
  }

  lemma RecordLength(r: Record)
    requires Storable(r)
    ensures |RecordBytes(r)| == 28 + |r.raw|
  {
    PositionApart(r.epoch, r.segment, r.offset, 0, 0, 0);
    FrameFormat.Le4(|r.raw|);
    hide Le, Position;
  }

  /** No record's bytes begin another's: a stream is read in one way. */
  lemma RecordApart(r: Record, a: seq<Byte>, q: Record, b: seq<Byte>)
    requires Storable(r) && Storable(q) && RecordBytes(r) + a == RecordBytes(q) + b
    ensures r == q && a == b
  {
    PositionApart(r.epoch, r.segment, r.offset, q.epoch, q.segment, q.offset);
    PositionApart(q.epoch, q.segment, q.offset, r.epoch, r.segment, r.offset);
    FrameFormat.Le4(|r.raw|);
    FrameFormat.Le4(|q.raw|);
    hide Le, Position;
    var p, n := Position(r.epoch, r.segment, r.offset), Le(|r.raw|, 4);
    var o, m := Position(q.epoch, q.segment, q.offset), Le(|q.raw|, 4);
    Sequences.Associative(p + n, r.raw, a);
    Sequences.Associative(o + m, q.raw, b);
    Apart(p + n, r.raw + a, o + m, q.raw + b);
    Apart(p, n, o, m);
    Apart(r.raw, a, q.raw, b);
  }

  /** What was read from the front of a stream is how the stream begins. */
  lemma {:induction false} StreamBegins(read: seq<Record>, rest: seq<Byte>, all: seq<Record>)
    requires AllStorable(read) && AllStorable(all) && Stream(read) + rest == Stream(all)
    ensures |read| <= |all| && read == all[..|read|] && rest == Stream(all[|read|..])
    decreases |read|
  {
    hide RecordBytes;
    if read == [] {
      assert [] + rest == rest;
    } else {
      RecordLength(read[0]);
      assert |Stream(read) + rest| > 0;
      Sequences.Associative(RecordBytes(read[0]), Stream(read[1..]), rest);
      RecordApart(read[0], Stream(read[1..]) + rest, all[0], Stream(all[1..]));
      StreamBegins(read[1..], rest, all[1..]);
      assert read == [read[0]] + read[1..] && all == [all[0]] + all[1..];
      assert all[1..][..|read| - 1] == all[1..|read|] && all[1..][|read| - 1..] == all[|read|..];
    }
  }

  lemma {:induction false} StreamSnoc(rs: seq<Record>, r: Record)
    requires AllStorable(rs) && Storable(r)
    ensures AllStorable(rs + [r]) && Stream(rs + [r]) == Stream(rs) + RecordBytes(r)
    decreases |rs|
  {
    hide RecordBytes;
    if rs == [] {
      assert [r][1..] == [] && RecordBytes(r) + [] == RecordBytes(r) && [] + RecordBytes(r) == RecordBytes(r);
    } else {
      assert (rs + [r])[1..] == rs[1..] + [r];
      StreamSnoc(rs[1..], r);
      Sequences.Associative(RecordBytes(rs[0]), Stream(rs[1..]), RecordBytes(r));
    }
  }

  // ------------------------------------------------------------- the chain

  predicate SameHistory(c: ArchiveCursor, d: ArchiveCursor) {
    c.database == d.database && c.generation == d.generation && c.branch == d.branch
  }

  /** Whether a cursor is at or past another one; contradictory cursors are refused. */
  function Covers(c: ArchiveCursor, d: ArchiveCursor): Result<bool> {
    if !SameHistory(c, d) then Err(Invalid)
    else if c.seqNo == d.seqNo then (if c != d then Err(Invalid) else Ok(true))
    else if c.seqNo < d.seqNo then Ok(false)
    else if c.epoch < d.epoch || c.segment < d.segment || (c.segment == d.segment && c.offset <= d.offset)
    then Err(Invalid)
    else Ok(true)
  }

  // What the digest of a cursor is taken from.
  function Hashed(c: ArchiveCursor, r: Record): seq<Byte> {
    CursorBytes(c) + Position(r.epoch, r.segment, r.offset) + r.raw
  }

  /** The cursor after one more record, which must continue the history where the cursor stands. */
  function Advance(hash: Hash, c: ArchiveCursor, r: Record): Result<ArchiveCursor> {
    var seqNo :- FrameFormat.InspectRecord(r.raw);
    var base := if r.segment == c.segment then c.offset else FIRST_OFFSET;
    if || c.seqNo + 1 != seqNo
       || r.epoch < c.epoch
       || r.segment < c.segment
       || (r.segment != c.segment && r.segment != seqNo)
       || (r.segment == c.segment && r.epoch != c.epoch && c.offset != FIRST_OFFSET)
       || base + |r.raw| != r.offset
    then Err(Corruption)
    else
      Ok(c.(epoch := r.epoch, segment := r.segment, offset := r.offset, seqNo := seqNo, digest := hash(Hashed(c, r))))
  }

  /** The cursor after some records. */
  function Walk(hash: Hash, c: ArchiveCursor, rs: seq<Record>): Result<ArchiveCursor> {
    if rs == [] then Ok(c) else
    var d :- Walk(hash, c, rs[..|rs| - 1]);
    Advance(hash, d, rs[|rs| - 1])
  }

  lemma WalkNext(hash: Hash, c: ArchiveCursor, rs: seq<Record>, i: nat)
    requires i < |rs|
    ensures Walk(hash, c, rs[..i + 1]) ==
        match Walk(hash, c, rs[..i]) case Err(e) => Err(e) case Ok(d) => Advance(hash, d, rs[i])
  {
    assert rs[..i + 1][..i] == rs[..i];
    hide Advance;
  }

  /** A walk fails from its first wrong record on. */
  lemma {:induction false} WalkStops(hash: Hash, c: ArchiveCursor, rs: seq<Record>, i: nat)
    requires i <= |rs| && Walk(hash, c, rs[..i]).Err?
    ensures Walk(hash, c, rs).Err?
    decreases |rs|
  {
    hide Advance;
    if i < |rs| {
      WalkStops(hash, c, rs[..|rs| - 1], i) by { assert rs[..|rs| - 1][..i] == rs[..i]; }
    } else {
      assert rs[..i] == rs;
    }
  }

  /** Walking in two goes is walking in one. */
  lemma {:induction false} WalkJoin(hash: Hash, c: ArchiveCursor, a: seq<Record>, b: seq<Record>)
    requires Walk(hash, c, a).Ok?
    ensures Walk(hash, c, a + b) == Walk(hash, Walk(hash, c, a).value, b)
    decreases |b|
  {
    hide Advance;
    if b == [] {
      Sequences.Neutral(a);
    } else {
      var n := |b| - 1;
      WalkJoin(hash, c, a, b[..n]);
      Sequences.Snoc(b);
      Sequences.Associative(a, b[..n], [b[n]]);
      Sequences.Unsnoc(a + b[..n], b[n]);
    }
  }

  // ------------------------------------------- what the walk accepts, by place

  /** A record begins where the one before it ended, or opens the segment named after it. */
  predicate Continues(epoch: U64, segment: U64, offset: U64, seqNo: nat, r: Record) {
    && epoch <= r.epoch
    && (|| (r.segment == segment && r.offset == offset + |r.raw| && (r.epoch == epoch || offset == FIRST_OFFSET))
        || (segment < r.segment == seqNo && r.offset == FIRST_OFFSET + |r.raw|))
  }

  // The i-th record stands at its place behind `c`.
  predicate InPlace(c: ArchiveCursor, rs: seq<Record>, i: nat)
    requires i < |rs|
  {
    && FrameFormat.InspectRecord(rs[i].raw) == Ok(c.seqNo + 1 + i)
    && if i == 0 then Continues(c.epoch, c.segment, c.offset, c.seqNo + 1, rs[0])
       else Continues(rs[i - 1].epoch, rs[i - 1].segment, rs[i - 1].offset, c.seqNo + 1 + i, rs[i])
  }

  predicate Continuous(c: ArchiveCursor, rs: seq<Record>) { forall i | 0 <= i < |rs| :: InPlace(c, rs, i) }

  predicate StandsAt(c: ArchiveCursor, rs: seq<Record>, d: ArchiveCursor) {
    && SameHistory(c, d) && d.seqNo == c.seqNo + |rs|
    && if rs == [] then c == d
       else (d.epoch, d.segment, d.offset) == (rs[|rs| - 1].epoch, rs[|rs| - 1].segment, rs[|rs| - 1].offset)
  }

  lemma {:induction false} WalkIff(hash: Hash, c: ArchiveCursor, rs: seq<Record>)
    ensures Walk(hash, c, rs).Ok? <==> Continuous(c, rs)
    ensures Walk(hash, c, rs).Ok? ==> StandsAt(c, rs, Walk(hash, c, rs).value)
  {
    hide FrameFormat.InspectRecord, Hashed;
    if rs != [] {
      var n := |rs| - 1;
      var front := rs[..n];
      WalkIff(hash, c, front);
      assert forall i | 0 <= i < n :: InPlace(c, rs, i) <==> InPlace(c, front, i);
      assert Continuous(c, rs) <==> Continuous(c, front) && InPlace(c, rs, n) by {
        assert Continuous(c, front) ==> forall i | 0 <= i < n :: InPlace(c, rs, i);
        assert Continuous(c, rs) ==> forall i | 0 <= i < n :: InPlace(c, front, i);
      }
      if Walk(hash, c, front).Ok? {
        var d := Walk(hash, c, front).value;
        assert n > 0 ==> front[n - 1] == rs[n - 1];
        AdvanceIff(hash, d, rs[n]);
      }
    }
  }

  lemma AdvanceIff(hash: Hash, c: ArchiveCursor, r: Record)
    ensures Advance(hash, c, r).Ok? <==>
      FrameFormat.InspectRecord(r.raw) == Ok(c.seqNo + 1) && Continues(c.epoch, c.segment, c.offset, c.seqNo + 1, r)
    ensures Advance(hash, c, r).Ok? ==> StandsAt(c, [r], Advance(hash, c, r).value)
  {
    hide FrameFormat.InspectRecord, Hashed;
  }

  /** What lies behind a boundary covers it, and is not covered by it unless they are one. */
  lemma {:induction false} WalkCovers(hash: Hash, c: ArchiveCursor, rs: seq<Record>)
    requires Walk(hash, c, rs).Ok?
    ensures Covers(Walk(hash, c, rs).value, c) == Ok(true)
    ensures rs != [] ==> Covers(c, Walk(hash, c, rs).value) == Ok(false)
    decreases |rs|
  {
    hide FrameFormat.InspectRecord, Hashed;
    if rs != [] {
      var n := |rs| - 1;
      WalkCovers(hash, c, rs[..n]);
      var d := Walk(hash, c, rs[..n]).value;
      AdvanceIff(hash, d, rs[n]);
      RecordNonEmpty(rs[n].raw);
    }
  }

  lemma RecordNonEmpty(raw: seq<Byte>)
    ensures FrameFormat.InspectRecord(raw).Ok? ==> MIN_RECORD < |raw| <= MAX_RECORD
  {
    if FrameFormat.InspectRecord(raw).Ok? { FrameFormat.RecordCanonical(raw); }
  }

  lemma {:induction false} WalkLegal(hash: Hash, c: ArchiveCursor, rs: seq<Record>)
    requires Walk(hash, c, rs).Ok? && Legal(c)
    ensures Legal(Walk(hash, c, rs).value)
    decreases |rs|
  {
    hide FrameFormat.InspectRecord, Hashed;
    if rs != [] {
      WalkLegal(hash, c, rs[..|rs| - 1]);
    }
  }

  // -------------------------------------------------------------- tampering

  // Two different inputs of one digest, met at the i-th record of two walks.
  predicate Clash(hash: Hash, c: ArchiveCursor, rs: seq<Record>, d: ArchiveCursor, qs: seq<Record>, i: nat) {
    && i < |rs| && i < |qs| && Walk(hash, c, rs[..i]).Ok? && Walk(hash, d, qs[..i]).Ok?
    && var x, y := Hashed(Walk(hash, c, rs[..i]).value, rs[i]), Hashed(Walk(hash, d, qs[..i]).value, qs[i]);
    x != y && hash(x) == hash(y)
  }

  lemma HashedApart(c: ArchiveCursor, r: Record, d: ArchiveCursor, q: Record)
    requires Hashed(c, r) == Hashed(d, q)
    ensures c == d && r == q
  {
    CursorLength(c);
    CursorLength(d);
    PositionApart(r.epoch, r.segment, r.offset, q.epoch, q.segment, q.offset);
    PositionApart(q.epoch, q.segment, q.offset, r.epoch, r.segment, r.offset);
    hide CursorBytes, Position;
    var p, o := Position(r.epoch, r.segment, r.offset), Position(q.epoch, q.segment, q.offset);
    Apart(CursorBytes(c) + p, r.raw, CursorBytes(d) + o, q.raw);
    Apart(CursorBytes(c), p, CursorBytes(d), o);
    CursorApart(c, d);
  }

  /** Two walks of one length that end at the same cursor are the same walk, or show a collision of the hash. */
  lemma {:induction false} TamperEvident(hash: Hash, c: ArchiveCursor, rs: seq<Record>, d: ArchiveCursor,
                                         qs: seq<Record>)
    requires |rs| == |qs| && Walk(hash, c, rs).Ok? && Walk(hash, c, rs) == Walk(hash, d, qs)
    ensures (c == d && rs == qs) || exists i :: Clash(hash, c, rs, d, qs, i)
    decreases |rs|
  {
    hide FrameFormat.InspectRecord, Hashed, Clash;
    if rs != [] {
      var n := |rs| - 1;
      var a, b := Walk(hash, c, rs[..n]), Walk(hash, d, qs[..n]);
      if Hashed(a.value, rs[n]) == Hashed(b.value, qs[n]) {
        HashedApart(a.value, rs[n], b.value, qs[n]);
        TamperEvident(hash, c, rs[..n], d, qs[..n]);
        Sequences.Snoc(rs);
        Sequences.Snoc(qs);
        if i: nat :| Clash(hash, c, rs[..n], d, qs[..n], i) { ClashStays(hash, c, rs, d, qs, i); }
      } else {
        ClashHere(hash, c, rs, d, qs);
      }
    }
  }

  lemma ClashStays(hash: Hash, c: ArchiveCursor, rs: seq<Record>, d: ArchiveCursor, qs: seq<Record>, i: nat)
    requires |rs| == |qs| > 0 && Clash(hash, c, rs[..|rs| - 1], d, qs[..|qs| - 1], i)
    ensures Clash(hash, c, rs, d, qs, i)
  {
    hide Walk, Hashed;
    Sequences.Take(rs, i, |rs| - 1);
    Sequences.Take(qs, i, |qs| - 1);
  }

  lemma ClashHere(hash: Hash, c: ArchiveCursor, rs: seq<Record>, d: ArchiveCursor, qs: seq<Record>)
    requires |rs| == |qs| > 0 && Walk(hash, c, rs).Ok? && Walk(hash, c, rs) == Walk(hash, d, qs)
    requires Walk(hash, c, rs[..|rs| - 1]).Ok? && Walk(hash, d, qs[..|rs| - 1]).Ok?
    requires var n := |rs| - 1;
      Hashed(Walk(hash, c, rs[..n]).value, rs[n]) != Hashed(Walk(hash, d, qs[..n]).value, qs[n])
    ensures Clash(hash, c, rs, d, qs, |rs| - 1)
  {
    hide Hashed, FrameFormat.InspectRecord;
  }

  // -------------------------------------------------------------- whole chunks

  /** The chunk holds these records: they are its bytes, and lead from its start to its end. */
  predicate Holds(hash: Hash, c: ExportChunk, rs: seq<Record>) {
    AllStorable(rs) && c.records == Stream(rs) && Walk(hash, c.start, rs) == Ok(c.end)
  }

  /** The bytes are those of an intact chunk. */
  ghost predicate Reads(hash: Hash, bytes: seq<Byte>, c: ExportChunk) {
    && |bytes| <= MAX_CHUNK_BYTES && bytes == ToBytes(c) && Legal(c.start) && Legal(c.end)
    && exists rs :: Holds(hash, c, rs)
  }

  /** Bytes are read as one chunk at most. */
  lemma ToBytesApart(c: ExportChunk, d: ExportChunk)
    requires ToBytes(c) == ToBytes(d)
    ensures c == d
  {
    CursorLength(c.start);
    CursorLength(d.start);
    CursorLength(c.end);
    CursorLength(d.end);
    hide CursorBytes;
    var a, b := CHUNK_MAGIC + CursorBytes(c.start), CHUNK_MAGIC + CursorBytes(d.start);
    Apart(a + CursorBytes(c.end), c.records, b + CursorBytes(d.end), d.records);
    Apart(a, CursorBytes(c.end), b, CursorBytes(d.end));
    Apart(CHUNK_MAGIC, CursorBytes(c.start), CHUNK_MAGIC, CursorBytes(d.start));
    CursorApart(c.start, d.start);
    CursorApart(c.end, d.end);
  }

  /** A chunk holds one list of records. */
  lemma HoldsOne(hash: Hash, c: ExportChunk, rs: seq<Record>, qs: seq<Record>)
    requires Holds(hash, c, rs) && Holds(hash, c, qs)
    ensures rs == qs
  {
    hide Walk;
    assert Stream(rs) + [] == Stream(qs) && Stream(qs) + [] == Stream(rs);
    StreamBegins(rs, [], qs);
    StreamBegins(qs, [], rs);
  }

  /** Intact chunks between the same two cursors are equal, or show a collision of the hash. */
  lemma SameEnds(hash: Hash, c: ExportChunk, rs: seq<Record>, d: ExportChunk, qs: seq<Record>)
    requires Holds(hash, c, rs) && Holds(hash, d, qs) && c.start == d.start && c.end == d.end
    ensures c == d || exists i :: Clash(hash, c.start, rs, d.start, qs, i)
  {
    hide Walk, Clash;
    WalkIff(hash, c.start, rs);
    WalkIff(hash, d.start, qs);
    TamperEvident(hash, c.start, rs, d.start, qs);
  }
}
