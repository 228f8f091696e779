/** The checking readers of cursors, archived records and chunks, and the splitting of a chunk. */
module ArchiveReading {
  import opened Prelude
  import opened LittleEndian
  import opened ArchiveFormat
  import FrameFormat
  import Sequences

  /** What remains of some bytes. */
  class Reader {
    var bytes: seq<Byte>

    constructor (bytes: seq<Byte>)
      ensures this.bytes == bytes
    {
      this.bytes := bytes;
    }

    method Take(length: nat) returns (r: Result<seq<Byte>>)
      modifies this
      ensures r.Ok? <==> length <= |old(bytes)|
      ensures r.Ok? ==> |r.value| == length && old(bytes) == r.value + bytes
      ensures r.Err? ==> bytes == old(bytes)
    {
      if length > |bytes| { return Err(Corruption); }
      var value := bytes[..length];
      bytes := bytes[length..];
      return Ok(value);
    }

    method Magic(expected: seq<Byte>) returns (r: Result<()>)
      modifies this
      ensures r.Ok? <==> expected <= old(bytes)
      ensures r.Ok? ==> old(bytes) == expected + bytes
    {
      var found :- Take(|expected|);
      if found != expected { return Err(Corruption); }
      return Ok(());
    }

    method U64() returns (r: Result<U64>)
      modifies this
      ensures r.Ok? <==> 8 <= |old(bytes)|
      ensures r.Ok? ==> old(bytes) == Le(r.value, 8) + bytes && |old(bytes)| == 8 + |bytes|
    {
      var field :- Take(8);
      FrameFormat.U64At(field);
      return Ok(FromLe(field));
    }

    method U32() returns (r: Result<U32>)
      modifies this
      ensures r.Ok? <==> 4 <= |old(bytes)|
      ensures r.Ok? ==> old(bytes) == Le(r.value, 4) + bytes && |old(bytes)| == 4 + |bytes|
    {
      var field :- Take(4);
      FrameFormat.U32At(field);
      return Ok(FromLe(field));
    }
  }

  // ----------------------------------------------------------------- cursors

  predicate Denotes(bytes: seq<Byte>, c: ArchiveCursor) { Legal(c) && CursorBytes(c) == bytes }

  lemma CursorShape(bytes: seq<Byte>)
    ensures forall c | Denotes(bytes, c) :: |bytes| == CURSOR_BYTES && CURSOR_MAGIC <= bytes
  {
    hide CursorBytes;
    forall c | Denotes(bytes, c) ensures |bytes| == CURSOR_BYTES && CURSOR_MAGIC <= bytes { CursorLength(c); }
  }

  method ReadPosition(reader: Reader) returns (r: Result<(U64, U64, U64)>)
    modifies reader
    ensures r.Ok? <==> 24 <= |old(reader.bytes)|
    ensures r.Ok? ==> old(reader.bytes) == Position(r.value.0, r.value.1, r.value.2) + reader.bytes
    ensures r.Ok? ==> |old(reader.bytes)| == 24 + |reader.bytes|
  {
    hide Le;
    var epoch :- reader.U64();
    var segment :- reader.U64();
    var offset :- reader.U64();
    return Ok((epoch, segment, offset));
  }

  /** Accepts exactly the encodings of legal cursors, each as the cursor encoded. */
  method ReadCursor(bytes: seq<Byte>) returns (r: Result<ArchiveCursor>)
    ensures r.Ok? <==> exists c :: Denotes(bytes, c)
    ensures r.Ok? ==> Denotes(bytes, r.value)
  {
    CursorShape(bytes);
    hide Position, Le, Denotes;
    var reader := new Reader(bytes);
    var _ :- reader.Magic(CURSOR_MAGIC);
    var database :- reader.Take(16);
    var generation :- reader.Take(16);
    var branch :- reader.Take(16);
    var position :- ReadPosition(reader);
    var (epoch, segment, offset) := position;
    var seqNo :- reader.U64();
    var digest :- reader.Take(32);
    var cursor := ArchiveCursor(database, generation, branch, epoch, segment, offset, seqNo, digest);
    Assembled(cursor, reader.bytes);
    if reader.bytes != [] { return Err(Corruption); }
    OnlyCursor(bytes, cursor);
    if segment == 0 || offset < FIRST_OFFSET { return Err(Corruption); }
    return Ok(cursor);
  }

  lemma Assembled(c: ArchiveCursor, rest: seq<Byte>)
    ensures CURSOR_MAGIC
      + (c.database + (c.generation + (c.branch + (Position(c.epoch, c.segment, c.offset)
      + (Le(c.seqNo, 8) + (c.digest + rest)))))) == CursorBytes(c) + rest
  {
    hide Position, Le;
  }

  lemma OnlyCursor(bytes: seq<Byte>, c: ArchiveCursor)
    ensures CursorBytes(c) == bytes ==> forall d | Denotes(bytes, d) :: d == c
    ensures Denotes(bytes, c) <==> CursorBytes(c) == bytes && c.segment > 0 && c.offset >= FIRST_OFFSET
    ensures CursorBytes(c) + [] == CursorBytes(c)
  {
    hide CursorBytes;
    forall d | Denotes(bytes, d) && CursorBytes(c) == bytes ensures d == c { CursorApart(d, c); }
  }

  // ----------------------------------------------------------------- records

  predicate Begins(bytes: seq<Byte>, r: Record, rest: seq<Byte>) { Storable(r) && bytes == RecordBytes(r) + rest }

  lemma RecordShape(bytes: seq<Byte>)
    ensures forall r, rest | Begins(bytes, r, rest) :: |bytes| >= 28
  {
    hide RecordBytes;
    forall r, rest | Begins(bytes, r, rest) ensures |bytes| >= 28 { RecordLength(r); }
  }

  // The length field tells how long the record is that begins here.
  lemma LengthField(bytes: seq<Byte>, position: seq<Byte>, length: U32, rest: seq<Byte>)
    requires |position| == 24 && bytes == position + (Le(length, 4) + rest)
    ensures forall r, tail | Begins(bytes, r, tail) :: |r.raw| == length && length <= |rest|
  {
    FrameFormat.Le4(length);
    hide Position, Le;
    forall r, tail | Begins(bytes, r, tail) ensures |r.raw| == length && length <= |rest| {
      var p, n := Position(r.epoch, r.segment, r.offset), Le(|r.raw|, 4);
      PositionApart(r.epoch, r.segment, r.offset, 0, 0, 0);
      FrameFormat.Le4(|r.raw|);
      assert bytes == p + (n + (r.raw + tail));
      Apart(p, n + (r.raw + tail), position, Le(length, 4) + rest);
      Apart(n, r.raw + tail, Le(length, 4), rest);
    }
  }

  /** Reads the record that the remaining bytes begin with, exactly when there is one. */
  method ReadRecord(reader: Reader) returns (r: Result<Record>)
    modifies reader
    ensures r.Ok? <==> exists q, rest :: Begins(old(reader.bytes), q, rest)
    ensures r.Ok? ==> Begins(old(reader.bytes), r.value, reader.bytes)
  {
    ghost var bytes := reader.bytes;
    RecordShape(bytes);
    hide Position, Le, Begins;
    var position :- ReadPosition(reader);
    var (epoch, segment, offset) := position;
    PositionApart(epoch, segment, offset, 0, 0, 0);
    var length :- reader.U32();
    LengthField(bytes, Position(epoch, segment, offset), length, reader.bytes);
    RecordSize(bytes);
    if length < MIN_RECORD || length > MAX_RECORD { return Err(Corruption); }
    var raw :- reader.Take(length);
    var record := Record(epoch, segment, offset, raw);
    RecordAssembled(record, reader.bytes);
    return Ok(record);
  }

  lemma RecordSize(bytes: seq<Byte>)
    ensures forall r, tail | Begins(bytes, r, tail) :: MIN_RECORD <= |r.raw| <= MAX_RECORD
  {
  }

  lemma RecordAssembled(r: Record, rest: seq<Byte>)
    requires Storable(r)
    ensures Begins(Position(r.epoch, r.segment, r.offset) + (Le(|r.raw|, 4) + (r.raw + rest)), r, rest)
  {
    hide Position, Le;
  }

  // ------------------------------------------------------------------ chunks

  // The records read so far lead to the cursor; the rest is still to be read.
  ghost predicate Reading(hash: Hash, start: ArchiveCursor, bytes: seq<Byte>, read: seq<Record>, cursor: ArchiveCursor,
                          rest: seq<Byte>) {
    AllStorable(read) && Stream(read) + rest == bytes && Walk(hash, start, read) == Ok(cursor)
  }

  // The whole bytes are a stream of records that follow each other.
  ghost predicate Followed(hash: Hash, start: ArchiveCursor, bytes: seq<Byte>, rs: seq<Record>) {
    AllStorable(rs) && bytes == Stream(rs) && Walk(hash, start, rs).Ok?
  }

  // Whatever the bytes hold continues what was read of them.
  lemma Continued(hash: Hash, start: ArchiveCursor, bytes: seq<Byte>, read: seq<Record>, cursor: ArchiveCursor,
                  rest: seq<Byte>)
    requires Reading(hash, start, bytes, read, cursor, rest)
    ensures forall rs | Followed(hash, start, bytes, rs) ::
      && |read| <= |rs| && rs[..|read|] == read
      && (rest == [] ==> rs == read)
      && (rest != [] ==> |read| < |rs| && Begins(rest, rs[|read|], Stream(rs[|read| + 1..]))
                         && Advance(hash, cursor, rs[|read|]).Ok?)
  {
    hide RecordBytes, Advance;
    var n := |read|;
    forall rs | Followed(hash, start, bytes, rs)
      ensures n <= |rs| && rs[..n] == read && (rest == [] ==> rs == read)
      ensures rest != [] ==> n < |rs| && Begins(rest, rs[n], Stream(rs[n + 1..])) && Advance(hash, cursor, rs[n]).Ok?
    {
      StreamBegins(read, rest, rs);
      if n < |rs| {
        assert rs[n..][0] == rs[n] && rs[n..][1..] == rs[n + 1..];
        RecordLength(rs[n]);
        WalkNext(hash, start, rs, n);
        if Walk(hash, start, rs[..n + 1]).Err? { WalkStops(hash, start, rs, n + 1); }
      } else {
        assert rs[..n] == rs;
      }
    }
  }

  lemma ReadMore(hash: Hash, start: ArchiveCursor, bytes: seq<Byte>, read: seq<Record>, cursor: ArchiveCursor,
                 rest: seq<Byte>, r: Record, tail: seq<Byte>)
    requires Reading(hash, start, bytes, read, cursor, rest) && Begins(rest, r, tail)
    requires Advance(hash, cursor, r).Ok?
    ensures Reading(hash, start, bytes, read + [r], Advance(hash, cursor, r).value, tail)
  {
    hide Advance, RecordBytes;
    StreamSnoc(read, r);
    Sequences.Associative(Stream(read), RecordBytes(r), tail);
    Sequences.Unsnoc(read, r);
  }

  // What begins the bytes is the one record that begins them.
  lemma OneRecord(bytes: seq<Byte>, r: Record, rest: seq<Byte>)
    requires Begins(bytes, r, rest)
    ensures forall q, tail | Begins(bytes, q, tail) :: q == r && tail == rest
  {
    hide RecordBytes;
    forall q, tail | Begins(bytes, q, tail) ensures q == r && tail == rest { RecordApart(q, tail, r, rest); }
  }

  /** Reads the next record and moves the cursor past it; fails where no stream of records goes on like this. */
  method ReadNext(hash: Hash, reader: Reader, cursor: ArchiveCursor, ghost start: ArchiveCursor,
                  ghost bytes: seq<Byte>, ghost read: seq<Record>) returns (r: Result<(Record, ArchiveCursor)>)
    requires reader.bytes != [] && Reading(hash, start, bytes, read, cursor, reader.bytes)
    modifies reader
    ensures r.Ok? ==> |reader.bytes| < |old(reader.bytes)|
    ensures r.Ok? ==> Reading(hash, start, bytes, read + [r.value.0], r.value.1, reader.bytes)
    ensures r.Err? ==> forall rs :: !Followed(hash, start, bytes, rs)
  {
    ghost var rest := reader.bytes;
    Continued(hash, start, bytes, read, cursor, rest);
    hide Reading, Advance, Begins, Followed;
    var record :- ReadRecord(reader);
    OneRecord(rest, record, reader.bytes);
    var next :- Advance(hash, cursor, record);
    ReadMore(hash, start, bytes, read, cursor, rest, record, reader.bytes);
    BeginsShorter(rest, record, reader.bytes);
    return Ok((record, next));
  }

  lemma BeginsShorter(bytes: seq<Byte>, r: Record, rest: seq<Byte>)
    requires Begins(bytes, r, rest)
    ensures |rest| < |bytes|
  {
    hide RecordBytes;
    RecordLength(r);
  }

  lemma StartReading(hash: Hash, start: ArchiveCursor, bytes: seq<Byte>)
    ensures Reading(hash, start, bytes, [], start, bytes)
  {
    Sequences.Neutral(bytes);
  }

  // The bytes of a chunk, field by field.
  lemma ChunkFields(hash: Hash, bytes: seq<Byte>, a: seq<Byte>, b: seq<Byte>, records: seq<Byte>)
    requires |a| == CURSOR_BYTES && |b| == CURSOR_BYTES && bytes == CHUNK_MAGIC + (a + (b + records))
    ensures forall c | Reads(hash, bytes, c) ::
      Denotes(a, c.start) && Denotes(b, c.end) && c.records == records && |bytes| <= MAX_CHUNK_BYTES
  {
    hide CursorBytes, Holds, Legal;
    forall c | Reads(hash, bytes, c)
      ensures Denotes(a, c.start) && Denotes(b, c.end) && c.records == records && |bytes| <= MAX_CHUNK_BYTES
    {
      var s, e := CursorBytes(c.start), CursorBytes(c.end);
      CursorLength(c.start);
      CursorLength(c.end);
      assert bytes == CHUNK_MAGIC + (s + (e + c.records));
      Apart(CHUNK_MAGIC, s + (e + c.records), CHUNK_MAGIC, a + (b + records));
      Apart(s, e + c.records, a, b + records);
      Apart(e, c.records, b, records);
    }
  }

  lemma ChunkShape(hash: Hash, bytes: seq<Byte>)
    ensures forall c | Reads(hash, bytes, c) ::
      |bytes| >= 8 + 2 * CURSOR_BYTES && CHUNK_MAGIC <= bytes && |bytes| <= MAX_CHUNK_BYTES
  {
    hide CursorBytes, Holds, Legal;
    forall c | Reads(hash, bytes, c)
      ensures |bytes| >= 8 + 2 * CURSOR_BYTES && CHUNK_MAGIC <= bytes && |bytes| <= MAX_CHUNK_BYTES
    {
      CursorLength(c.start);
      CursorLength(c.end);
    }
  }

  lemma OneCursor(bytes: seq<Byte>)
    ensures forall c, d | Denotes(bytes, c) && Denotes(bytes, d) :: c == d
  {
    hide CursorBytes, Legal;
    forall c, d | Denotes(bytes, c) && Denotes(bytes, d) ensures c == d { CursorApart(c, d); }
  }

  /** Accepts exactly the bytes of intact chunks, each as the chunk whose bytes they are. */
  method FromBytes(hash: Hash, bytes: seq<Byte>) returns (r: Result<ExportChunk>)
    ensures r.Ok? <==> exists c :: Reads(hash, bytes, c)
    ensures r.Ok? ==> Reads(hash, bytes, r.value)
    ensures |bytes| > MAX_CHUNK_BYTES ==> r == Err(Limit)
  {
    ChunkShape(hash, bytes);
    hide Reads, Denotes, Reading, Followed;
    if |bytes| > MAX_CHUNK_BYTES { return Err(Limit); }
    var reader := new Reader(bytes);
    var _ :- reader.Magic(CHUNK_MAGIC);
    var first :- reader.Take(CURSOR_BYTES);
    var second :- reader.Take(CURSOR_BYTES);
    var records := reader.bytes;
    ChunkFields(hash, bytes, first, second, records);
    OneCursor(first);
    OneCursor(second);
    var start :- ReadCursor(first);
    var end :- ReadCursor(second);
    ChunkIs(hash, bytes, ExportChunk(start, end, records));
    var cursor := start;
    ghost var read := [];
    StartReading(hash, start, records);
    while reader.bytes != []
      invariant Reading(hash, start, records, read, cursor, reader.bytes)
      decreases |reader.bytes|
    {
      var next :- ReadNext(hash, reader, cursor, start, records, read);
      read, cursor := read + [next.0], next.1;
    }
    AllRead(hash, start, records, read, cursor);
    if cursor != end { return Err(Corruption); }
    ChunkRead(hash, bytes, first, second, ExportChunk(start, end, records), read);
    return Ok(ExportChunk(start, end, records));
  }

  // Nothing but the chunk with these fields is denoted, and it holds a stream.
  lemma ChunkIs(hash: Hash, bytes: seq<Byte>, k: ExportChunk)
    ensures forall c | Reads(hash, bytes, c) && c == k ::
      exists rs :: Followed(hash, k.start, k.records, rs) && Walk(hash, k.start, rs) == Ok(k.end)
  {
    forall c | Reads(hash, bytes, c) && c == k
      ensures exists rs :: Followed(hash, k.start, k.records, rs) && Walk(hash, k.start, rs) == Ok(k.end)
    {
      var rs :| Holds(hash, c, rs);
      assert Followed(hash, k.start, k.records, rs);
    }
  }

  lemma AllRead(hash: Hash, start: ArchiveCursor, bytes: seq<Byte>, read: seq<Record>, cursor: ArchiveCursor)
    requires Reading(hash, start, bytes, read, cursor, [])
    ensures Followed(hash, start, bytes, read) && Walk(hash, start, read) == Ok(cursor)
    ensures forall rs | Followed(hash, start, bytes, rs) :: rs == read
  {
    Continued(hash, start, bytes, read, cursor, []);
    hide Followed;
    Sequences.Neutral(Stream(read));
    FollowedIs(hash, start, bytes, read);
  }

  lemma FollowedIs(hash: Hash, start: ArchiveCursor, bytes: seq<Byte>, rs: seq<Record>)
    requires AllStorable(rs) && bytes == Stream(rs) && Walk(hash, start, rs).Ok?
    ensures Followed(hash, start, bytes, rs)
  {
  }

  lemma ChunkRead(hash: Hash, bytes: seq<Byte>, first: seq<Byte>, second: seq<Byte>, c: ExportChunk, rs: seq<Record>)
    requires Denotes(first, c.start) && Denotes(second, c.end) && |bytes| <= MAX_CHUNK_BYTES
    requires bytes == CHUNK_MAGIC + (first + (second + c.records))
    requires Followed(hash, c.start, c.records, rs) && Walk(hash, c.start, rs) == Ok(c.end)
    ensures Reads(hash, bytes, c)
  {
    hide CursorBytes, Legal;
    assert Holds(hash, c, rs);
    assert ToBytes(c) == bytes;
  }

  // --------------------------------------------------------------- splitting

  /** The cursor is the boundary in front of the k-th record. */
  predicate SplitsAt(hash: Hash, c: ExportChunk, rs: seq<Record>, after: ArchiveCursor, k: nat) {
    Holds(hash, c, rs) && k <= |rs| && Walk(hash, c.start, rs[..k]) == Ok(after)
  }

  function Rest(c: ExportChunk, rs: seq<Record>, after: ArchiveCursor, k: nat): Option<ExportChunk>
    requires AllStorable(rs) && k <= |rs|
  {
    if k == |rs| then None else Some(ExportChunk(after, c.end, Stream(rs[k..])))
  }

  /** The answer to a split: the chunk of what follows the cursor, none when nothing does. */
  ghost predicate Suffixed(hash: Hash, c: ExportChunk, after: ArchiveCursor, answer: Option<ExportChunk>) {
    exists rs, k: nat :: SplitsAt(hash, c, rs, after, k) && answer == Rest(c, rs, after, k)
  }

  function Remaining(c: ExportChunk, after: ArchiveCursor, suffix: seq<Byte>): Option<ExportChunk> {
    if suffix == [] then None else Some(ExportChunk(after, c.end, suffix))
  }

  lemma SuffixedSplits(hash: Hash, c: ExportChunk, after: ArchiveCursor, answer: Option<ExportChunk>)
    requires Suffixed(hash, c, after, answer)
    ensures exists rs, k: nat :: SplitsAt(hash, c, rs, after, k)
  {
    hide SplitsAt;
  }

  /** A boundary of a chunk lies between its ends, and what follows it is a chunk. */
  lemma SplitParts(hash: Hash, c: ExportChunk, rs: seq<Record>, after: ArchiveCursor, k: nat)
    requires SplitsAt(hash, c, rs, after, k)
    ensures Covers(after, c.start) == Ok(true) && Covers(c.end, after) == Ok(true)
    ensures Holds(hash, ExportChunk(after, c.end, Stream(rs[k..])), rs[k..])
    ensures Stream(rs[..k]) + Stream(rs[k..]) == c.records
    ensures after.seqNo == c.start.seqNo + k
  {
    hide Covers, Advance;
    Sequences.Cut(rs, k);
    WalkJoin(hash, c.start, rs[..k], rs[k..]);
    WalkCovers(hash, c.start, rs[..k]);
    WalkCovers(hash, after, rs[k..]);
    WalkIff(hash, c.start, rs[..k]);
    StreamJoin(rs[..k], rs[k..]);
  }

  lemma {:induction false} StreamJoin(a: seq<Record>, b: seq<Record>)
    requires AllStorable(a) && AllStorable(b)
    ensures AllStorable(a + b) && Stream(a + b) == Stream(a) + Stream(b)
    decreases |b|
  {
    hide RecordBytes;
    if b == [] {
      Sequences.Neutral(a);
      Sequences.Neutral(Stream(a));
    } else {
      assert a + b == (a + [b[0]]) + b[1..];
      StreamSnoc(a, b[0]);
      StreamJoin(a + [b[0]], b[1..]);
      Sequences.Associative(Stream(a), RecordBytes(b[0]), Stream(b[1..]));
    }
  }

  /** What follows a boundary of acceptable bytes has acceptable bytes. */
  lemma SuffixReads(hash: Hash, bytes: seq<Byte>, c: ExportChunk, rs: seq<Record>, after: ArchiveCursor, k: nat)
    requires Reads(hash, bytes, c) && SplitsAt(hash, c, rs, after, k)
    ensures var d := ExportChunk(after, c.end, Stream(rs[k..])); Reads(hash, ToBytes(d), d)
  {
    hide Covers, Advance, CursorBytes;
    var d := ExportChunk(after, c.end, Stream(rs[k..]));
    SplitParts(hash, c, rs, after, k);
    WalkLegal(hash, c.start, rs[..k]);
    CursorLength(c.start);
    CursorLength(d.start);
    CursorLength(c.end);
  }

  // What is known of the boundary looked for, with the records read so far.
  ghost predicate Searched(hash: Hash, c: ExportChunk, read: seq<Record>, after: ArchiveCursor,
                           suffix: Option<seq<Byte>>) {
    && AllStorable(read)
    && (suffix.Some? ==> exists k: nat :: FoundAt(hash, c, read, after, suffix.value, k))
    && (suffix.None? ==> forall k | 0 <= k <= |read| :: Walk(hash, c.start, read[..k]) != Ok(after))
  }

  predicate FoundAt(hash: Hash, c: ExportChunk, read: seq<Record>, after: ArchiveCursor, suffix: seq<Byte>, k: nat)
    requires AllStorable(read)
  {
    k <= |read| && Walk(hash, c.start, read[..k]) == Ok(after) && Stream(read[..k]) + suffix == c.records
  }

  lemma SearchStarts(hash: Hash, c: ExportChunk, after: ArchiveCursor)
    ensures Searched(hash, c, [], after, if after == c.start then Some(c.records) else None)
  {
    Sequences.Neutral(c.records);
    if after == c.start { assert FoundAt(hash, c, [], after, c.records, 0); }
  }

  lemma SearchGoesOn(hash: Hash, c: ExportChunk, read: seq<Record>, r: Record, after: ArchiveCursor,
                     suffix: Option<seq<Byte>>, cursor: ArchiveCursor, rest: seq<Byte>)
    requires Searched(hash, c, read, after, suffix) && Reading(hash, c.start, c.records, read + [r], cursor, rest)
    ensures Searched(hash, c, read + [r], after, if cursor == after then Some(rest) else suffix)
  {
    hide Walk, Stream;
    var more := read + [r];
    var n := |more|;
    assert more[..n] == more;
    assert forall k | 0 <= k <= |read| :: more[..k] == read[..k];
    if cursor == after {
      assert FoundAt(hash, c, more, after, rest, n);
    } else if suffix.Some? {
      var k: nat :| FoundAt(hash, c, read, after, suffix.value, k);
      assert more[..k] == read[..k];
      assert FoundAt(hash, c, more, after, suffix.value, k);
    } else {
      forall k | 0 <= k <= n ensures Walk(hash, c.start, more[..k]) != Ok(after) {
        if k < n { assert more[..k] == read[..k]; }
      }
    }
  }

  lemma SearchEnds(hash: Hash, c: ExportChunk, read: seq<Record>, after: ArchiveCursor, suffix: Option<seq<Byte>>)
    requires Searched(hash, c, read, after, suffix) && Holds(hash, c, read)
    ensures suffix.None? ==> forall rs, k: nat :: !SplitsAt(hash, c, rs, after, k)
    ensures suffix.Some? ==> Suffixed(hash, c, after, Remaining(c, after, suffix.value))
  {
    hide Walk;
    if suffix.Some? {
      var k: nat :| FoundAt(hash, c, read, after, suffix.value, k);
      assert SplitsAt(hash, c, read, after, k);
      SplitParts(hash, c, read, after, k);
      Apart(Stream(read[..k]), suffix.value, Stream(read[..k]), Stream(read[k..]));
      RestIs(hash, c, read, after, k);
    } else {
      forall rs, k: nat ensures !SplitsAt(hash, c, rs, after, k) {
        if SplitsAt(hash, c, rs, after, k) { HoldsOne(hash, c, rs, read); }
      }
    }
  }

  // A split implies both order tests and a stream of records that follow each other.
  lemma SplitNeeds(hash: Hash, c: ExportChunk, after: ArchiveCursor)
    ensures forall rs, k: nat | SplitsAt(hash, c, rs, after, k) ::
      && Covers(after, c.start) == Ok(true) && Covers(c.end, after) == Ok(true)
      && Followed(hash, c.start, c.records, rs) && Walk(hash, c.start, rs) == Ok(c.end)
  {
    hide Covers, Walk;
    forall rs, k: nat | SplitsAt(hash, c, rs, after, k)
      ensures Covers(after, c.start) == Ok(true) && Covers(c.end, after) == Ok(true)
      ensures Followed(hash, c.start, c.records, rs) && Walk(hash, c.start, rs) == Ok(c.end)
    {
      SplitParts(hash, c, rs, after, k);
    }
  }

  /**
   Splits a chunk at exactly its record boundaries: the answer holds the records after the
   cursor and leads to the same end. Any other cursor, and any chunk that is not intact, is refused.
   */
  method SuffixAfter(hash: Hash, c: ExportChunk, after: ArchiveCursor) returns (r: Result<Option<ExportChunk>>)
    ensures r.Ok? <==> exists rs, k: nat :: SplitsAt(hash, c, rs, after, k)
    ensures r.Ok? ==> Suffixed(hash, c, after, r.value)
  {
    SplitNeeds(hash, c, after);
    hide Covers, SplitsAt, Suffixed, Reading, Followed, Searched, Walk, Stream;
    var reached :- Covers(after, c.start);
    if !reached { return Err(Corruption); }
    var within :- Covers(c.end, after);
    if !within { return Err(Corruption); }
    var reader := new Reader(c.records);
    var cursor := c.start;
    ghost var read := [];
    var suffix := if after == cursor then Some(c.records) else None;
    StartReading(hash, c.start, c.records);
    SearchStarts(hash, c, after);
    while reader.bytes != []
      invariant Reading(hash, c.start, c.records, read, cursor, reader.bytes)
      invariant Searched(hash, c, read, after, suffix)
      decreases |reader.bytes|
    {
      var next :- ReadNext(hash, reader, cursor, c.start, c.records, read);
      SearchGoesOn(hash, c, read, next.0, after, suffix, next.1, reader.bytes);
      read, cursor := read + [next.0], next.1;
      if cursor == after { suffix := Some(reader.bytes); }
    }
    AllRead(hash, c.start, c.records, read, cursor);
    if cursor != c.end { return Err(Corruption); }
    ReadHolds(hash, c, read);
    SearchEnds(hash, c, read, after, suffix);
    if suffix.None? { return Err(Corruption); }
    SuffixedSplits(hash, c, after, Remaining(c, after, suffix.value));
    return Ok(Remaining(c, after, suffix.value));
  }

  lemma ReadHolds(hash: Hash, c: ExportChunk, rs: seq<Record>)
    requires Followed(hash, c.start, c.records, rs) && Walk(hash, c.start, rs) == Ok(c.end)
    ensures Holds(hash, c, rs)
  {
  }

  lemma RestIs(hash: Hash, c: ExportChunk, rs: seq<Record>, after: ArchiveCursor, k: nat)
    requires SplitsAt(hash, c, rs, after, k)
    ensures AllStorable(rs) && k <= |rs|
    ensures Rest(c, rs, after, k) == Remaining(c, after, Stream(rs[k..]))
  {
    hide Walk, RecordBytes;
    if k < |rs| { RecordLength(rs[k..][0]); }
  }
}
