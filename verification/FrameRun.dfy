/**
 Runs of encoded frames, and what any byte prefix of one looks like.

 `CutRun` says that whatever prefix of a run survives, it is a run of whole frames
 followed by bytes that the reader recognises as an unfinished frame.
 */
module FrameRun {
  import opened Prelude
  import opened LittleEndian
  import opened FrameFormat
  import Crc32
  import Sequences

  function Size(fs: seq<Frame>): nat {
    if fs == [] then 0 else Size(fs[..|fs| - 1]) + FrameLength(fs[|fs| - 1])
  }

  function EncodeAll(fs: seq<Frame>): (bytes: seq<Byte>)
    ensures |bytes| == Size(fs)
  {
    if fs == [] then [] else
    var last := fs[|fs| - 1];
    EncodedParts(last);
    EncodeAll(fs[..|fs| - 1]) + EncodeFrame(last)
  }

  lemma RunSnoc(fs: seq<Frame>, f: Frame)
    ensures Size(fs + [f]) == Size(fs) + FrameLength(f)
    ensures EncodeAll(fs + [f]) == EncodeAll(fs) + EncodeFrame(f)
  {
    assert (fs + [f])[..|fs|] == fs;
    hide EncodeFrame;
  }

  lemma {:induction false} RunConcat(a: seq<Frame>, b: seq<Frame>)
    ensures Size(a + b) == Size(a) + Size(b)
    ensures EncodeAll(a + b) == EncodeAll(a) + EncodeAll(b)
    decreases |b|
  {
    if b == [] {
      Sequences.Neutral(a);
      Sequences.Neutral(EncodeAll(a));
    } else {
      hide *;
      var n := |b| - 1;
      RunConcat(a, b[..n]);
      Sequences.Snoc(b);
      Sequences.Associative(a, b[..n], [b[n]]);
      RunSnoc(a + b[..n], b[n]);
      RunSnoc(b[..n], b[n]);
      Sequences.Associative(EncodeAll(a), EncodeAll(b[..n]), EncodeFrame(b[n]));
    }
  }

  // A run cut at its k-th frame.
  lemma RunAround(fs: seq<Frame>, k: nat)
    requires k < |fs|
    ensures Size(fs[..k + 1]) == Size(fs[..k]) + FrameLength(fs[k]) <= Size(fs)
    ensures EncodeAll(fs) == EncodeAll(fs[..k]) + (EncodeFrame(fs[k]) + EncodeAll(fs[k + 1..]))
  {
    hide *;
    Sequences.Around(fs, k);
    RunConcat(fs[..k + 1], fs[k + 1..]);
    RunSnoc(fs[..k], fs[k]);
    Sequences.Associative(EncodeAll(fs[..k]), EncodeFrame(fs[k]), EncodeAll(fs[k + 1..]));
  }

  lemma {:induction false} SizeMonotone(fs: seq<Frame>, i: nat, j: nat)
    requires i <= j <= |fs|
    ensures Size(fs[..i]) <= Size(fs[..j])
    decreases j
  {
    if i < j {
      SizeMonotone(fs, i, j - 1);
      RunAround(fs, j - 1);
    }
  }

  // ------------------------------------------------------- unfinished frames

  /** What the reader takes for an interrupted write, given everything up to the end of the file. */
  predicate Unfinished(rest: seq<Byte>) {
    || |rest| < 4
    || FrameLen(rest[..4]).Err?
    || FrameLen(rest[..4]).value > |rest|
    || (FrameLen(rest[..4]).value == |rest| && ReadU32(rest, 4) != Crc32.Checksum(rest[8..]))
  }

  lemma LengthField(f: Frame, rest: seq<Byte>)
    requires LegalFrame(f) && 4 <= |rest| && rest[..4] == EncodeFrame(f)[..4]
    ensures FrameLen(rest[..4]) == Ok(FrameLength(f))
  {
    EncodedParts(f);
    LegalLength(f);
    hide Le, EncodeFrame, LegalFrame;
    assert rest[..4][0..4] == Le(FrameLength(f), 4);
    ReadBack4(FrameLength(f), rest[..4], 0);
    hide ReadU32;
  }

  /** Every strict prefix of a frame is recognised as unfinished. */
  lemma StrictPrefixUnfinished(f: Frame, cut: nat)
    requires LegalFrame(f) && cut < FrameLength(f)
    ensures |EncodeFrame(f)| == FrameLength(f) && Unfinished(EncodeFrame(f)[..cut])
  {
    EncodedParts(f);
    hide EncodeFrame, LegalFrame, FrameBody;
    if 4 <= cut {
      assert EncodeFrame(f)[..cut][..4] == EncodeFrame(f)[..4];
      LengthField(f, EncodeFrame(f)[..cut]);
    }
  }

  /** A whole frame never is, whatever follows it, and it reads back as itself. */
  lemma WholeFrameReads(f: Frame, more: seq<Byte>)
    requires LegalFrame(f)
    ensures var rest := EncodeFrame(f) + more;
            && |rest| >= FrameLength(f) && rest[..FrameLength(f)] == EncodeFrame(f)
            && !Unfinished(rest) && FrameLen(rest[..4]) == Ok(FrameLength(f))
            && Inspect(rest[..FrameLength(f)]) == Ok(f)
  {
    var rest := EncodeFrame(f) + more;
    EncodedParts(f);
    LegalLength(f);
    FrameDecodes(f);
    hide EncodeFrame, LegalFrame, FrameBody, Inspect, FrameLen;
    assert rest[..FrameLength(f)] == EncodeFrame(f);
    assert rest[..4] == EncodeFrame(f)[..4];
    LengthField(f, rest);
    if FrameLength(f) == |rest| {
      assert rest == EncodeFrame(f);
      ReadBack4(Crc32.Checksum(FrameBody(f)), rest, 4);
    }
    hide Crc32.Checksum, ReadU32;
  }

  /** A frame with any one byte behind its length changed is refused, and at the end of a file taken for unfinished. */
  lemma ChangedFrame(f: Frame, i: nat, x: Byte)
    requires LegalFrame(f) && 4 <= i < |EncodeFrame(f)| && EncodeFrame(f)[i] != x
    ensures Unfinished(EncodeFrame(f)[i := x]) && Inspect(EncodeFrame(f)[i := x]).Err?
  {
    var e := EncodeFrame(f);
    var rest := e[i := x];
    EncodedParts(f);
    LegalLength(f);
    hide EncodeFrame, LegalFrame, FrameBody, Le, FromLe, Crc32.Checksum, FrameLen, Inspect;
    assert rest[..4] == e[..4];
    LengthField(f, rest);
    assert ReadU32(rest, 4) != Crc32.Checksum(rest[8..]) by {
      if i < 8 {
        assert rest[8..] == e[8..] && rest[4..8][i - 4] == x && e[4..8][i - 4] == e[i];
      } else {
        assert rest[4..8] == e[4..8];
        ReadBack4(Crc32.Checksum(FrameBody(f)), rest, 4);
        assert rest[8..] == e[8..][i - 8 := x];
        Crc32.ByteDetected(e[8..], i - 8, x);
      }
    }
    WrongChecksum(rest);
  }

  lemma WrongChecksum(bytes: seq<Byte>)
    requires |bytes| >= 8 && ReadU32(bytes, 4) != Crc32.Checksum(bytes[8..])
    ensures Inspect(bytes).Err?
  {
    hide Crc32.Checksum, ReadU32, ReadU64, InspectRecord;
  }

  // How many whole frames the first `cut` bytes of a run hold.
  function Whole(fs: seq<Frame>, cut: nat): (k: nat)
    ensures k <= |fs| && Size(fs[..k]) <= cut
    ensures k < |fs| ==> cut < Size(fs[..k + 1])
    ensures k == |fs| ==> Size(fs) <= cut
  {
    if fs == [] then 0
    else if Size(fs) <= cut then assert fs[..|fs|] == fs; |fs|
    else
      var n := |fs| - 1;
      var k := Whole(fs[..n], cut);
      assert fs[..n][..k] == fs[..k];
      assert k < n ==> fs[..n][..k + 1] == fs[..k + 1];
      assert k == n ==> fs[..k + 1] == fs;
      k
  }

  predicate LegalFrames(fs: seq<Frame>) { forall i | 0 <= i < |fs| :: LegalFrame(fs[i]) }

  /** Any byte prefix of a run is the run of its whole frames and an unfinished rest. */
  lemma CutRun(fs: seq<Frame>, cut: nat)
    requires LegalFrames(fs) && cut <= Size(fs)
    ensures var k := Whole(fs, cut);
            && Size(fs[..k]) <= cut
            && EncodeAll(fs)[..cut] == EncodeAll(fs[..k]) + EncodeAll(fs)[Size(fs[..k])..cut]
            && Unfinished(EncodeAll(fs)[Size(fs[..k])..cut])
            && (k == |fs| ==> cut == Size(fs))
  {
    var k := Whole(fs, cut);
    hide Size, EncodeAll, LegalFrame, EncodeFrame, Whole;
    if k < |fs| {
      RunAround(fs, k);
      StrictPrefixUnfinished(fs[k], cut - Size(fs[..k]));
      hide Unfinished;
      assert EncodeAll(fs)[..Size(fs[..k])] == EncodeAll(fs[..k]);
      assert EncodeAll(fs)[Size(fs[..k])..cut] == EncodeFrame(fs[k])[..cut - Size(fs[..k])];
    } else {
      assert fs[..k] == fs;
      assert EncodeAll(fs)[..cut] == EncodeAll(fs);
      assert EncodeAll(fs)[cut..cut] == [];
    }
  }
}
