/**
 The byte layouts of the shared log: records, the frames that carry them and the
 segment header.

 `EncodeFrame` and `Inspect` are inverse in both directions, so a byte string is
 accepted as a frame for at most one reading and only in its canonical form.
 */
module FrameFormat {
  import opened Prelude
  import opened LittleEndian
  import Crc32
  import Sequences

  const SEGMENT_HEADER: nat := 64
  const FRAME_HEADER: nat := 80
  const RECORD_HEADER: nat := 16
  const MAX_RECORD_PAYLOAD: nat := 65_536
  const MAX_FRAME: nat := 65_536 + 16 + FRAME_HEADER

  // The two 16-byte halves of a database identity, in order.
  type Id = b: seq<Byte> | |b| == 32 witness seq(32, _ => 0)
  type Owner = b: seq<Byte> | |b| == 16 witness seq(16, _ => 0)

  datatype Pointer = Pointer(segment: nat, offset: nat)

  const NOWHERE := Pointer(0, 0)

  /** The lexicographic order of log positions. */
  predicate Below(p: Pointer, q: Pointer) {
    p.segment < q.segment || (p.segment == q.segment && p.offset < q.offset)
  }

  datatype Frame = Frame(id: Id, lsn: nat, seqNo: nat, previous: Pointer, raw: seq<Byte>)

  // ---------------------------------------------------------------- records

  function RecordCrc(length: nat, seqNo: nat, payload: seq<Byte>): U32 {
    Crc32.Checksum(Le(length, 4) + Le(seqNo, 8) + payload)
  }

  function EncodeRecord(seqNo: nat, payload: seq<Byte>): seq<Byte>
    requires 1 <= |payload| <= MAX_RECORD_PAYLOAD
  {
    Le(|payload|, 4) + Le(seqNo, 8) + Le(RecordCrc(|payload|, seqNo, payload), 4) + payload
  }

  lemma U32At(bytes: seq<Byte>)
    requires |bytes| == 4
    ensures 0 <= FromLe(bytes) <= U32_MAX && Le(FromLe(bytes), 4) == bytes
  {
    LeInverse(FromLe(bytes), bytes);
    WidthCapacities();
  }

  lemma U64At(bytes: seq<Byte>)
    requires |bytes| == 8
    ensures 0 <= FromLe(bytes) <= U64_MAX && Le(FromLe(bytes), 8) == bytes
  {
    LeInverse(FromLe(bytes), bytes);
    WidthCapacities();
  }

  function ReadU32(bytes: seq<Byte>, start: nat): (n: U32)
    requires start + 4 <= |bytes|
    ensures Le(n, 4) == bytes[start..start + 4]
  {
    U32At(bytes[start..start + 4]);
    FromLe(bytes[start..start + 4])
  }

  function ReadU64(bytes: seq<Byte>, start: nat): (n: U64)
    requires start + 8 <= |bytes|
    ensures Le(n, 8) == bytes[start..start + 8]
  {
    U64At(bytes[start..start + 8]);
    FromLe(bytes[start..start + 8])
  }

  lemma Le4(n: U32)
    ensures |Le(n, 4)| == 4 && FromLe(Le(n, 4)) == n
  {
    LeLength(n, 4);
    LeInverse(n, Le(n, 4));
    WidthCapacities();
  }

  lemma Le8(n: U64)
    ensures |Le(n, 8)| == 8 && FromLe(Le(n, 8)) == n
  {
    LeLength(n, 8);
    LeInverse(n, Le(n, 8));
    WidthCapacities();
  }

  // Checks a record and answers its sequence number.
  function InspectRecord(bytes: seq<Byte>): Result<U64> {
    if |bytes| < RECORD_HEADER then Err(Corruption) else
    var length := ReadU32(bytes, 0);
    if length == 0 || length > MAX_RECORD_PAYLOAD || |bytes| != length + RECORD_HEADER then Err(Corruption) else
    var seqNo := ReadU64(bytes, 4);
    if RecordCrc(length, seqNo, bytes[RECORD_HEADER..]) != ReadU32(bytes, 12) then Err(Corruption) else Ok(seqNo)
  }

  lemma RecordParts(seqNo: nat, payload: seq<Byte>)
    requires 1 <= |payload| <= MAX_RECORD_PAYLOAD
    ensures var e := EncodeRecord(seqNo, payload);
            && |e| == RECORD_HEADER + |payload| && e[0..4] == Le(|payload|, 4) && e[4..12] == Le(seqNo, 8)
            && e[12..16] == Le(RecordCrc(|payload|, seqNo, payload), 4) && e[RECORD_HEADER..] == payload
  {
    hide Le, FromLe, RecordCrc;
    LeLength(|payload|, 4);
    LeLength(seqNo, 8);
    LeLength(RecordCrc(|payload|, seqNo, payload), 4);
    Sequences.Join4(Le(|payload|, 4), Le(seqNo, 8), Le(RecordCrc(|payload|, seqNo, payload), 4), payload);
  }

  lemma RecordDecodes(seqNo: U64, payload: seq<Byte>)
    requires 1 <= |payload| <= MAX_RECORD_PAYLOAD
    ensures InspectRecord(EncodeRecord(seqNo, payload)) == Ok(seqNo)
  {
    hide Le, FromLe, RecordCrc, EncodeRecord, ReadU32, ReadU64;
    RecordParts(seqNo, payload);
    var e := EncodeRecord(seqNo, payload);
    ReadBack4(|payload|, e, 0);
    ReadBack8(seqNo, e, 4);
    ReadBack4(RecordCrc(|payload|, seqNo, payload), e, 12);
  }

  lemma RecordCanonical(bytes: seq<Byte>)
    requires InspectRecord(bytes).Ok?
    ensures RECORD_HEADER < |bytes| <= RECORD_HEADER + MAX_RECORD_PAYLOAD
    ensures EncodeRecord(InspectRecord(bytes).value, bytes[RECORD_HEADER..]) == bytes
  {
    hide Le, FromLe, RecordCrc;
    Split4(bytes, 4, 8, 4);
  }

  /** Inspection accepts exactly the encodings, and reads back their sequence number. */
  lemma RecordIff(bytes: seq<Byte>, seqNo: U64)
    ensures InspectRecord(bytes) == Ok(seqNo) <==>
            |bytes| > RECORD_HEADER && |bytes| - RECORD_HEADER <= MAX_RECORD_PAYLOAD
            && bytes == EncodeRecord(seqNo, bytes[RECORD_HEADER..])
  {
    hide *;
    if InspectRecord(bytes) == Ok(seqNo) { RecordCanonical(bytes); }
    if |bytes| > RECORD_HEADER && |bytes| - RECORD_HEADER <= MAX_RECORD_PAYLOAD {
      RecordDecodes(seqNo, bytes[RECORD_HEADER..]);
    }
  }

  lemma Split4(bytes: seq<Byte>, a: nat, b: nat, c: nat)
    requires a + b + c <= |bytes|
    ensures bytes == bytes[..a] + bytes[a..a + b] + bytes[a + b..a + b + c] + bytes[a + b + c..]
  {
  }

  // ----------------------------------------------------------------- frames

  predicate LegalFrame(f: Frame) {
    && f.lsn <= U64_MAX && f.previous.segment <= U64_MAX && f.previous.offset <= U64_MAX
    && 0 < f.seqNo <= U64_MAX && InspectRecord(f.raw) == Ok(f.seqNo)
  }

  function FrameLength(f: Frame): nat { FRAME_HEADER + |f.raw| }

  function FrameName(f: Frame): seq<Byte> { Le(f.lsn, 8) + f.id + Le(f.seqNo, 8) }

  function FrameLink(f: Frame): seq<Byte> {
    Le(f.previous.segment, 8) + Le(f.previous.offset, 8) + Le(|f.raw|, 4) + [0, 0, 0, 0]
  }

  // Everything behind the checksum field.
  function FrameBody(f: Frame): seq<Byte> { FrameName(f) + FrameLink(f) + f.raw }

  function EncodeFrame(f: Frame): seq<Byte> {
    Le(FrameLength(f), 4) + Le(Crc32.Checksum(FrameBody(f)), 4) + FrameBody(f)
  }

  lemma LegalLength(f: Frame)
    requires LegalFrame(f)
    ensures FRAME_HEADER + 17 <= FrameLength(f) <= MAX_FRAME
  {
    hide RecordCrc, Le, FromLe;
  }

  // The length field of a frame, when it is in range.
  function FrameLen(bytes: seq<Byte>): Result<nat> {
    if |bytes| < 4 then Err(Corruption) else
    var length := ReadU32(bytes, 0);
    if FRAME_HEADER + 17 <= length <= MAX_FRAME then Ok(length) else Err(Corruption)
  }

  function Inspect(bytes: seq<Byte>): Result<Frame> {
    var length :- FrameLen(bytes);
    if length != |bytes| || ReadU32(bytes, 4) != Crc32.Checksum(bytes[8..]) || bytes[76..80] != [0, 0, 0, 0]
    then Err(Corruption) else
    var raw := bytes[FRAME_HEADER..];
    if ReadU32(bytes, 72) != |raw| then Err(Corruption) else
    var seqNo := ReadU64(bytes, 48);
    if seqNo == 0 || InspectRecord(raw) != Ok(seqNo) then Err(Corruption) else
    Ok(Frame(bytes[16..48], ReadU64(bytes, 8), seqNo, Pointer(ReadU64(bytes, 56), ReadU64(bytes, 64)), raw))
  }

  lemma BodyFields(f: Frame)
    ensures var b := FrameBody(f);
            && |b| == 72 + |f.raw|
            && b[..8] == Le(f.lsn, 8) && b[8..40] == f.id && b[40..48] == Le(f.seqNo, 8)
            && b[48..56] == Le(f.previous.segment, 8) && b[56..64] == Le(f.previous.offset, 8)
            && b[64..68] == Le(|f.raw|, 4) && b[68..72] == [0, 0, 0, 0] && b[72..] == f.raw
  {
    NameFields(f);
    LinkFields(f);
    var b := FrameBody(f);
    assert b[..48] == FrameName(f) && b[48..72] == FrameLink(f) && b[72..] == f.raw;
    hide *;
    Within(b, 0, 48, 0, 8);
    Within(b, 0, 48, 8, 40);
    Within(b, 0, 48, 40, 48);
    Within(b, 48, 72, 0, 8);
    Within(b, 48, 72, 8, 16);
    Within(b, 48, 72, 16, 20);
    Within(b, 48, 72, 20, 24);
  }

  lemma Within(b: seq<Byte>, from: nat, to: nat, i: nat, j: nat)
    requires i <= j && from <= to <= |b| && from + j <= to
    ensures b[from..to][i..j] == b[from + i..from + j]
    ensures i == 0 ==> b[from..to][..j] == b[from..from + j]
  {
    assert forall k | 0 <= k < j - i :: b[from..to][i..j][k] == b[from + i..from + j][k];
  }

  lemma NameFields(f: Frame)
    ensures var b := FrameName(f);
            |b| == 48 && b[0..8] == Le(f.lsn, 8) && b[8..40] == f.id && b[40..48] == Le(f.seqNo, 8)
  {
    LeLength(f.lsn, 8);
    LeLength(f.seqNo, 8);
    hide Le, FromLe;
    Sequences.Join3(Le(f.lsn, 8), f.id, Le(f.seqNo, 8));
  }

  lemma LinkFields(f: Frame)
    ensures var b := FrameLink(f);
            && |b| == 24 && b[0..8] == Le(f.previous.segment, 8) && b[8..16] == Le(f.previous.offset, 8)
            && b[16..20] == Le(|f.raw|, 4) && b[20..24] == [0, 0, 0, 0]
  {
    LeLength(f.previous.segment, 8);
    LeLength(f.previous.offset, 8);
    LeLength(|f.raw|, 4);
    hide Le, FromLe;
    Sequences.Join4(Le(f.previous.segment, 8), Le(f.previous.offset, 8), Le(|f.raw|, 4), [0, 0, 0, 0]);
  }

  // A body is determined by its fields.
  lemma BodyFromFields(f: Frame, b: seq<Byte>)
    requires |b| == 72 + |f.raw|
    requires b[..8] == Le(f.lsn, 8) && b[8..40] == f.id && b[40..48] == Le(f.seqNo, 8)
    requires b[48..56] == Le(f.previous.segment, 8) && b[56..64] == Le(f.previous.offset, 8)
    requires b[64..68] == Le(|f.raw|, 4) && b[68..72] == [0, 0, 0, 0] && b[72..] == f.raw
    ensures FrameBody(f) == b
  {
    hide Le, FromLe;
    assert b[..48] == b[..8] + b[8..40] + b[40..48];
    assert b[48..72] == b[48..56] + b[56..64] + b[64..68] + b[68..72];
    assert b == b[..48] + b[48..72] + b[72..];
  }

  lemma EncodedParts(f: Frame)
    ensures var e := EncodeFrame(f);
            && |e| == FrameLength(f) && e[..4] == Le(FrameLength(f), 4)
            && e[4..8] == Le(Crc32.Checksum(FrameBody(f)), 4) && e[8..] == FrameBody(f)
  {
    BodyFields(f);
    LeLength(FrameLength(f), 4);
    LeLength(Crc32.Checksum(FrameBody(f)), 4);
    hide FrameBody, Le, FromLe, Crc32.Checksum;
    Sequences.Join3(Le(FrameLength(f), 4), Le(Crc32.Checksum(FrameBody(f)), 4), FrameBody(f));
  }

  // Reading a field at an offset of the whole frame is reading it in the body.
  lemma Shifted(bytes: seq<Byte>, i: nat, j: nat)
    requires 8 <= |bytes| && i <= j <= |bytes| - 8
    ensures bytes[8..][i..j] == bytes[8 + i..8 + j] && bytes[8..][i..] == bytes[8 + i..]
  {
    assert forall k | 0 <= k < j - i :: bytes[8..][i..j][k] == bytes[8 + i..8 + j][k];
    assert forall k | 0 <= k < |bytes| - 8 - i :: bytes[8..][i..][k] == bytes[8 + i..][k];
  }

  lemma ShiftedFields(bytes: seq<Byte>)
    requires |bytes| >= 80
    ensures var b := bytes[8..];
            && b[..8] == bytes[8..16] && b[8..40] == bytes[16..48] && b[40..48] == bytes[48..56]
            && b[48..56] == bytes[56..64] && b[56..64] == bytes[64..72] && b[64..68] == bytes[72..76]
            && b[68..72] == bytes[76..80] && b[72..] == bytes[80..]
  {
    Shifted(bytes, 0, 8);
    Shifted(bytes, 8, 40);
    Shifted(bytes, 40, 48);
    Shifted(bytes, 48, 56);
    Shifted(bytes, 56, 64);
    Shifted(bytes, 64, 68);
    Shifted(bytes, 68, 72);
    assert bytes[8..][72..] == bytes[80..];
  }

  lemma ReadBack4(n: U32, bytes: seq<Byte>, start: nat)
    requires start + 4 <= |bytes| && bytes[start..start + 4] == Le(n, 4)
    ensures ReadU32(bytes, start) == n
  {
    Le4(n);
  }

  lemma ReadBack8(n: U64, bytes: seq<Byte>, start: nat)
    requires start + 8 <= |bytes| && bytes[start..start + 8] == Le(n, 8)
    ensures ReadU64(bytes, start) == n
  {
    Le8(n);
  }

  lemma FrameDecodes(f: Frame)
    requires LegalFrame(f)
    ensures Inspect(EncodeFrame(f)) == Ok(f)
  {
    LegalLength(f);
    var e := EncodeFrame(f);
    EncodedParts(f);
    BodyFields(f);
    ShiftedFields(e);
    ReadBack4(FrameLength(f), e, 0);
    ReadBack4(Crc32.Checksum(FrameBody(f)), e, 4);
    ReadBack4(|f.raw|, e, 72);
    ReadBack8(f.lsn, e, 8);
    ReadBack8(f.seqNo, e, 48);
    ReadBack8(f.previous.segment, e, 56);
    ReadBack8(f.previous.offset, e, 64);
    hide Le, FromLe, Crc32.Checksum, FrameBody, EncodeFrame, InspectRecord, ReadU32, ReadU64;
  }

  lemma FrameCanonical(bytes: seq<Byte>)
    requires Inspect(bytes).Ok?
    ensures LegalFrame(Inspect(bytes).value)
    ensures EncodeFrame(Inspect(bytes).value) == bytes
  {
    hide Le, FromLe, Crc32.Checksum, InspectRecord, FrameBody;
    var f := Inspect(bytes).value;
    ShiftedFields(bytes);
    BodyFromFields(f, bytes[8..]);
    Prefixed(bytes);
  }

  lemma Prefixed(bytes: seq<Byte>)
    requires |bytes| >= 8
    ensures bytes == bytes[..4] + bytes[4..8] + bytes[8..]
  {
  }

  /** Inspection is the exact inverse of encoding. */
  lemma FrameIff(bytes: seq<Byte>, f: Frame)
    ensures Inspect(bytes) == Ok(f) <==> LegalFrame(f) && EncodeFrame(f) == bytes
  {
    hide *;
    if Inspect(bytes) == Ok(f) { FrameCanonical(bytes); }
    if LegalFrame(f) { FrameDecodes(f); }
  }

  // --------------------------------------------------------- segment header

  const SEGMENT_MAGIC: seq<Byte> := [0x4C, 0x53, 0x53, 0x57, 2, 0, 0, 0]

  function HeaderBody(owner: Owner, segment: nat, first: nat): seq<Byte> {
    SEGMENT_MAGIC + owner + Le(segment, 8) + Le(first, 8) + seq(20, _ => 0)
  }

  function EncodeHeader(owner: Owner, segment: nat, first: nat): seq<Byte> {
    HeaderBody(owner, segment, first) + Le(Crc32.Checksum(HeaderBody(owner, segment, first)), 4)
  }

  // Checks the first 64 bytes of a segment file and answers its initial LSN.
  function InspectHeader(bytes: seq<Byte>, owner: Owner, segment: U64): Result<U64> {
    if |bytes| != SEGMENT_HEADER || bytes[..8] != SEGMENT_MAGIC || ReadU32(bytes, 60) != Crc32.Checksum(bytes[..60])
    then Err(Corruption) else
    if bytes[8..24] != owner || ReadU64(bytes, 24) != segment || bytes[40..60] != seq(20, _ => 0)
    then Err(Corruption) else
    var first := ReadU64(bytes, 32);
    if first == 0 then Err(Corruption) else Ok(first)
  }

  lemma HeaderParts(owner: Owner, segment: nat, first: nat)
    ensures var b := HeaderBody(owner, segment, first);
            && |b| == 60 && b[..8] == SEGMENT_MAGIC && b[8..24] == owner
            && b[24..32] == Le(segment, 8) && b[32..40] == Le(first, 8) && b[40..60] == seq(20, _ => 0)
  {
    LeLength(segment, 8);
    LeLength(first, 8);
    hide Le, FromLe;
    var four := SEGMENT_MAGIC + owner + Le(segment, 8) + Le(first, 8);
    Sequences.Join4(SEGMENT_MAGIC, owner, Le(segment, 8), Le(first, 8));
    Sequences.InFirst(four, seq(20, _ => 0), 0, 8);
    Sequences.InFirst(four, seq(20, _ => 0), 8, 24);
    Sequences.InFirst(four, seq(20, _ => 0), 24, 32);
    Sequences.InFirst(four, seq(20, _ => 0), 32, 40);
  }

  lemma HeaderLength(owner: Owner, segment: nat, first: nat)
    ensures |EncodeHeader(owner, segment, first)| == SEGMENT_HEADER
  {
    HeaderParts(owner, segment, first);
    Le4(Crc32.Checksum(HeaderBody(owner, segment, first)));
    hide HeaderBody, Le, FromLe, Crc32.Checksum;
  }

  /** A header is accepted exactly when it is the encoding for this owner and number. */
  lemma HeaderIff(bytes: seq<Byte>, owner: Owner, segment: U64, first: U64)
    ensures InspectHeader(bytes, owner, segment) == Ok(first) <==>
      first != 0 && EncodeHeader(owner, segment, first) == bytes
  {
    hide *;
    if first != 0 && EncodeHeader(owner, segment, first) == bytes {
      HeaderDecodes(bytes, owner, segment, first);
    }
    if InspectHeader(bytes, owner, segment) == Ok(first) {
      HeaderCanonical(bytes, owner, segment);
    }
  }

  lemma HeaderCanonical(bytes: seq<Byte>, owner: Owner, segment: U64)
    requires InspectHeader(bytes, owner, segment).Ok?
    ensures InspectHeader(bytes, owner, segment).value != 0
    ensures EncodeHeader(owner, segment, InspectHeader(bytes, owner, segment).value) == bytes
  {
    hide Le, FromLe, Crc32.Checksum;
    assert bytes[..60] == bytes[..8] + bytes[8..24] + bytes[24..32] + bytes[32..40] + bytes[40..60];
    assert bytes == bytes[..60] + bytes[60..64];
  }

  lemma HeaderDecodes(bytes: seq<Byte>, owner: Owner, segment: U64, first: U64)
    requires first != 0 && EncodeHeader(owner, segment, first) == bytes
    ensures InspectHeader(bytes, owner, segment) == Ok(first)
  {
    hide Le, FromLe, Crc32.Checksum, HeaderBody, EncodeHeader, ReadU32, ReadU64;
    HeaderFields(owner, segment, first);
    ReadBack4(Crc32.Checksum(HeaderBody(owner, segment, first)), bytes, 60);
    ReadBack8(segment, bytes, 24);
    ReadBack8(first, bytes, 32);
  }

  lemma HeaderFields(owner: Owner, segment: nat, first: nat)
    ensures var b, e := HeaderBody(owner, segment, first), EncodeHeader(owner, segment, first);
            && |e| == SEGMENT_HEADER && e[..8] == SEGMENT_MAGIC && e[8..24] == owner
            && e[24..32] == Le(segment, 8) && e[32..40] == Le(first, 8) && e[40..60] == seq(20, _ => 0)
            && e[..60] == b && e[60..64] == Le(Crc32.Checksum(b), 4)
  {
    var b := HeaderBody(owner, segment, first);
    HeaderParts(owner, segment, first);
    HeaderLength(owner, segment, first);
    hide Le, FromLe, Crc32.Checksum, HeaderBody;
    var crc := Le(Crc32.Checksum(b), 4);
    Sequences.Parts(b, crc);
    Sequences.InFirst(b, crc, 0, 8);
    Sequences.InFirst(b, crc, 8, 24);
    Sequences.InFirst(b, crc, 24, 32);
    Sequences.InFirst(b, crc, 32, 40);
    Sequences.InFirst(b, crc, 40, 60);
  }
}
