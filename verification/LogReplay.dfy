/**
 Replaying one member: a backward walk along its predecessor pointers, then a forward
 pass over the positions it found.
 */
module LogReplay {
  import opened Prelude
  import opened FrameFormat
  import opened FrameRun
  import opened LogLayout
  import opened LogState
  import opened LogScanLaws
  import Sequences

  // --------------------------------------------------------------- reading

  function FindFile(files: seq<File>, number: nat): Option<seq<Byte>> {
    if files == [] then None else if files[0].number == number then Some(files[0].bytes)
    else FindFile(files[1..], number)
  }

  function ReadAt(bytes: seq<Byte>, offset: nat): Result<Frame> {
    if offset + 4 > |bytes| then Err(Corruption) else
    var length :- FrameLen(bytes[offset..offset + 4]);
    if offset + length > |bytes| then Err(Corruption) else Inspect(bytes[offset..offset + length])
  }

  function ReadFrame(files: seq<File>, p: Pointer): Result<Frame> {
    if p.segment == 0 || p.offset < SEGMENT_HEADER then Err(Corruption) else
    match FindFile(files, p.segment)
    case None => Err(Corruption)
    case Some(bytes) => ReadAt(bytes, p.offset)
  }

  lemma {:induction false} FindFileAt(files: seq<File>, i: nat)
    requires i < |files| && forall j | 0 <= j < i :: files[j].number != files[i].number
    ensures FindFile(files, files[i].number) == Some(files[i].bytes)
    decreases i
  {
    if i > 0 {
      assert files[0].number != files[i].number;
      assert forall j | 0 <= j < i - 1 :: files[1..][j] == files[j + 1];
      FindFileAt(files[1..], i - 1);
    }
  }

  /** The first file of this number has this content. */
  predicate Names(files: seq<File>, number: nat, bytes: seq<Byte>, i: nat) {
    && i < |files| && files[i].number == number && files[i].bytes == bytes
    && forall j | 0 <= j < i :: files[j].number != number
  }

  lemma {:induction false} FindFileIff(files: seq<File>, number: nat, bytes: seq<Byte>)
    ensures FindFile(files, number) == Some(bytes) <==> exists i: nat :: Names(files, number, bytes, i)
  {
    if files != [] {
      FindFileIff(files[1..], number, bytes);
      if files[0].number == number {
        assert files[0].bytes == bytes ==> Names(files, number, bytes, 0);
      } else {
        assert forall j | 1 <= j < |files| :: files[j] == files[1..][j - 1];
        forall i: nat | Names(files, number, bytes, i) ensures Names(files[1..], number, bytes, i - 1) {}
        forall i: nat | Names(files[1..], number, bytes, i) ensures Names(files, number, bytes, i + 1) {
          assert files[1..][i] == files[i + 1];
        }
      }
    }
  }

  /** The bytes from an offset on begin with this frame. */
  predicate HoldsFrame(bytes: seq<Byte>, offset: nat, f: Frame) {
    && LegalFrame(f) && offset + FrameLength(f) <= |bytes|
    && bytes[offset..offset + FrameLength(f)] == EncodeFrame(f)
  }

  lemma ReadAtIff(bytes: seq<Byte>, offset: nat, f: Frame)
    ensures ReadAt(bytes, offset) == Ok(f) <==> HoldsFrame(bytes, offset, f)
  {
    hide LegalFrame, EncodeFrame, FrameLength, FrameLen, Inspect;
    if HoldsFrame(bytes, offset, f) {
      var rest := bytes[offset..];
      var length := FrameLength(f);
      assert rest == EncodeFrame(f) + rest[length..] by { assert rest[..length] == bytes[offset..offset + length]; }
      WholeFrameReads(f, rest[length..]);
      LengthNonZero(f);
      assert rest[..4] == bytes[offset..offset + 4] && rest[..length] == bytes[offset..offset + length];
    }
    if ReadAt(bytes, offset) == Ok(f) {
      var length := FrameLen(bytes[offset..offset + 4]).value;
      FrameIff(bytes[offset..offset + length], f);
      EncodedParts(f);
    }
  }

  lemma LengthNonZero(f: Frame)
    ensures FrameLength(f) >= 4
  {
  }

  /** A position is read as a frame exactly when that frame lies there, behind the header of its file. */
  lemma ReadFrameIff(files: seq<File>, p: Pointer, f: Frame)
    ensures ReadFrame(files, p) == Ok(f) <==>
      && p.segment != 0 && p.offset >= SEGMENT_HEADER
      && exists bytes, i: nat :: Names(files, p.segment, bytes, i) && HoldsFrame(bytes, p.offset, f)
  {
    hide FindFile, ReadAt, Names, HoldsFrame;
    if FindFile(files, p.segment).Some? {
      var bytes := FindFile(files, p.segment).value;
      FindFileIff(files, p.segment, bytes);
      ReadAtIff(bytes, p.offset, f);
    }
    forall bytes, i: nat | Names(files, p.segment, bytes, i) ensures FindFile(files, p.segment) == Some(bytes) {
      FindFileIff(files, p.segment, bytes);
    }
  }

  // Where a live frame lies.
  lemma {:induction false} PlaceIndex(number: nat, fs: seq<Frame>, p: Placed) returns (k: nat)
    requires p in Places(number, fs)
    ensures k < |fs| && p == Placed(fs[k], Pointer(number, SEGMENT_HEADER + Size(fs[..k])))
    decreases |fs|
  {
    hide Size;
    var n := |fs| - 1;
    if p in Places(number, fs[..n]) {
      k := PlaceIndex(number, fs[..n], p);
      assert fs[..n][..k] == fs[..k];
    } else {
      k := n;
    }
  }

  lemma {:induction false} LiveIndex(segs: seq<Seg>, p: Placed) returns (i: nat, k: nat)
    requires p in Live(segs)
    ensures i < |segs| && k < |segs[i].frames|
    ensures p == Placed(segs[i].frames[k], Pointer(segs[i].number, SEGMENT_HEADER + Size(segs[i].frames[..k])))
    decreases |segs|
  {
    hide Size, Places;
    var n := |segs| - 1;
    if p in Live(segs[..n]) {
      i, k := LiveIndex(segs[..n], p);
    } else {
      i := n;
      k := PlaceIndex(segs[n].number, segs[n].frames, p);
    }
  }

  lemma ReadWhole(bytes: seq<Byte>, offset: nat, f: Frame, more: seq<Byte>)
    requires LegalFrame(f) && offset <= |bytes| && bytes[offset..] == EncodeFrame(f) + more
    ensures ReadAt(bytes, offset) == Ok(f)
  {
    hide LegalFrame, EncodeFrame, Inspect, FrameLen, Unfinished;
    WholeFrameReads(f, more);
    LegalLength(f);
    var rest := EncodeFrame(f) + more;
    var length := FrameLength(f);
    assert bytes[offset..offset + 4] == rest[..4];
    assert bytes[offset..offset + length] == rest[..length];
  }

  /** A frame whose bytes have reached the file reads back as itself. */
  lemma ReadSurvivor(owner: Owner, s: Seg, k: nat, bytes: seq<Byte>)
    requires SegOk(s) && s.whole && k < |s.frames| && bytes <= Content(owner, s)
    requires SEGMENT_HEADER + Size(s.frames[..k + 1]) <= |bytes|
    ensures ReadAt(bytes, SEGMENT_HEADER + Size(s.frames[..k])) == Ok(s.frames[k])
  {
    hide LegalFrame, Content, Size, EncodeFrame, ReadAt, Unfinished;
    assert LegalFrame(s.frames[k]);
    Sequences.Around(s.frames, k);
    RunSnoc(s.frames[..k], s.frames[k]);
    var more := RestAt(owner, s, k, Length(s));
    EncodedParts(s.frames[k]);
    var offset, f := SEGMENT_HEADER + Size(s.frames[..k]), EncodeFrame(s.frames[k]);
    var extra := |bytes| - offset - |f|;
    Shortened(Content(owner, s), bytes, offset, f, more, extra);
    ReadWhole(bytes, offset, s.frames[k], more[..extra]);
  }

  lemma Shortened(content: seq<Byte>, bytes: seq<Byte>, offset: nat, f: seq<Byte>, more: seq<Byte>, extra: nat)
    requires bytes <= content && offset + |f| + extra == |bytes| && content[offset..|content|] == f + more
    ensures extra <= |more| && bytes[offset..] == f + more[..extra]
  {
    assert bytes[offset..] == content[offset..|content|][..|bytes| - offset];
  }

  /** Every stable frame of the log is found at its position. */
  lemma StableReads(owner: Owner, files: seq<File>, segs: seq<Seg>, stable: nat, safe: nat, p: Placed)
    requires SegsOk(segs) && FilesOk(owner, files, segs, stable) && StableOk(segs, stable, safe)
    requires p in Live(segs) && p.frame.lsn <= safe
    ensures ReadFrame(files, p.at) == Ok(p.frame)
  {
    hide Live, Content, Size, LegalFrame, Unfinished, ReadAt, FindFile;
    var i, k := LiveIndex(segs, p);
    var s := segs[i];
    assert InPlace(segs, i);
    SizeMonotone(s.frames, k + 1, |s.frames|);
    Sequences.Neutral(s.frames);
    if i == |segs| - 1 {
      SizeMonotone(s.frames, k + 1, safe + 1 - s.first);
    }
    ReadSurvivor(owner, s, k, files[i].bytes);
    forall j | 0 <= j < i ensures files[j].number != files[i].number { FirstsIncrease(segs, j, i); }
    FindFileAt(files, i);
  }

  // -------------------------------------------------------------- the walks

  /** Positions of a member's frames from the newest back to its checkpoint. */
  function Backward(files: seq<File>, d: Id, p: Pointer, seqNo: nat, checkpoint: nat): Result<seq<Pointer>>
    decreases seqNo
  {
    if seqNo <= checkpoint then Ok([]) else
    if p == NOWHERE then Err(Corruption) else
    var f :- ReadFrame(files, p);
    if f.id != d || f.seqNo != seqNo || (f.previous != NOWHERE && !Below(f.previous, p)) then Err(Corruption) else
    var rest :- Backward(files, d, f.previous, seqNo - 1, checkpoint);
    Ok([p] + rest)
  }

  // The k-th position back from `seqNo` holds the member's frame of that number, which points to the next position.
  predicate StepsBack(files: seq<File>, d: Id, ps: seq<Pointer>, seqNo: nat, k: nat)
    requires k < |ps|
  {
    && ps[k] != NOWHERE && ReadFrame(files, ps[k]).Ok?
    && var f := ReadFrame(files, ps[k]).value;
    && f.id == d && f.seqNo + k == seqNo && (f.previous == NOWHERE || Below(f.previous, ps[k]))
    && (k + 1 < |ps| ==> f.previous == ps[k + 1])
  }

  predicate WalksBack(files: seq<File>, d: Id, p: Pointer, seqNo: nat, checkpoint: nat, ps: seq<Pointer>) {
    && |ps| == (if seqNo <= checkpoint then 0 else seqNo - checkpoint) && (ps != [] ==> ps[0] == p)
    && forall k | 0 <= k < |ps| :: StepsBack(files, d, ps, seqNo, k)
  }

  /** The walk succeeds exactly on an unbroken chain of the member's frames down to the checkpoint. */
  lemma {:induction false} BackwardIff(files: seq<File>, d: Id, p: Pointer, seqNo: nat, checkpoint: nat,
                                       ps: seq<Pointer>)
    ensures Backward(files, d, p, seqNo, checkpoint) == Ok(ps) <==> WalksBack(files, d, p, seqNo, checkpoint, ps)
    decreases seqNo
  {
    hide ReadFrame, Below;
    if seqNo > checkpoint && ps != [] && ReadFrame(files, p).Ok? {
      var f := ReadFrame(files, p).value;
      var rest := ps[1..];
      BackwardIff(files, d, f.previous, seqNo - 1, checkpoint, rest);
      assert ps == [ps[0]] + rest;
      assert forall k | 1 <= k < |ps| :: ps[k] == rest[k - 1];
      if WalksBack(files, d, p, seqNo, checkpoint, ps) {
        assert StepsBack(files, d, ps, seqNo, 0);
        var before := seqNo - 1;
        forall k | 0 <= k < |rest| ensures StepsBack(files, d, rest, before, k) {
          assert StepsBack(files, d, ps, seqNo, k + 1);
        }
        assert rest != [] ==> rest[0] == f.previous;
      }
      if StepsBack(files, d, ps, seqNo, 0) && WalksBack(files, d, f.previous, seqNo - 1, checkpoint, rest) {
        forall k | 0 <= k < |ps| ensures StepsBack(files, d, ps, seqNo, k) {
          if k > 0 { assert StepsBack(files, d, rest, seqNo - 1, k - 1); }
        }
      }
    } else if ps != [] {
      assert WalksBack(files, d, p, seqNo, checkpoint, ps) ==> StepsBack(files, d, ps, seqNo, 0);
    }
  }

  /** The records at those positions, oldest first, each continuing the tail. */
  function Forward(files: seq<File>, pointers: seq<Pointer>, next: nat): Result<seq<Raw>>
    decreases |pointers|
  {
    if pointers == [] then Ok([]) else
    var n := |pointers| - 1;
    var f :- ReadFrame(files, pointers[n]);
    if f.seqNo != next then Err(Corruption) else
    var rest :- Forward(files, pointers[..n], next + 1);
    Ok([f.raw] + rest)
  }

  // The frame `k` places from the last position carries the k-th number and record.
  predicate StepsForward(files: seq<File>, ps: seq<Pointer>, next: nat, records: seq<Raw>, k: nat)
    requires k < |ps| == |records|
  {
    && ReadFrame(files, ps[|ps| - 1 - k]).Ok?
    && var f := ReadFrame(files, ps[|ps| - 1 - k]).value; f.seqNo == next + k && f.raw == records[k]
  }

  predicate WalksForward(files: seq<File>, ps: seq<Pointer>, next: nat, records: seq<Raw>) {
    |ps| == |records| && forall k | 0 <= k < |ps| :: StepsForward(files, ps, next, records, k)
  }

  /** The pass succeeds exactly when the frames are numbered without a break, and answers their records. */
  lemma {:induction false} ForwardIff(files: seq<File>, ps: seq<Pointer>, next: nat, records: seq<Raw>)
    ensures Forward(files, ps, next) == Ok(records) <==> WalksForward(files, ps, next, records)
    decreases |ps|
  {
    hide ReadFrame;
    if ps != [] && records != [] {
      var n := |ps| - 1;
      var front, rest := ps[..n], records[1..];
      ForwardIff(files, front, next + 1, rest);
      assert records == [records[0]] + rest;
      assert forall k | 1 <= k < |records| :: records[k] == rest[k - 1];
      if WalksForward(files, ps, next, records) {
        assert StepsForward(files, ps, next, records, 0);
        var later := next + 1;
        forall k | 0 <= k < n ensures StepsForward(files, front, later, rest, k) {
          assert StepsForward(files, ps, next, records, k + 1);
        }
      }
      if WalksForward(files, front, next + 1, rest) && |ps| == |records| && StepsForward(files, ps, next, records, 0) {
        forall k | 0 <= k < |ps| ensures StepsForward(files, ps, next, records, k) {
          if k > 0 { assert StepsForward(files, front, next + 1, rest, k - 1); }
        }
      }
    }
  }

  function Positions(t: seq<Placed>): seq<Pointer> {
    if t == [] then [] else [Last(t).at] + Positions(t[..|t| - 1])
  }

  function Raws(t: seq<Placed>): seq<Raw> { seq(|t|, i requires 0 <= i < |t| => t[i].frame.raw) }

  // All frames of the thread can be read.
  predicate Legible(files: seq<File>, t: seq<Placed>) {
    forall p | p in t :: ReadFrame(files, p.at) == Ok(p.frame) && p.at != NOWHERE
  }

  // The frames of a thread above a checkpoint.
  function Above(t: seq<Placed>, checkpoint: nat): seq<Placed> {
    if t == [] || Last(t).frame.seqNo <= checkpoint then [] else Above(t[..|t| - 1], checkpoint) + [Last(t)]
  }

  lemma LegiblePart(files: seq<File>, t: seq<Placed>, i: nat, j: nat, d: Id)
    requires Legible(files, t) && i <= j <= |t|
    ensures Legible(files, t[i..j])
    ensures ((forall p | p in t :: p.frame.id == d) ==> forall p | p in t[i..j] :: p.frame.id == d)
  {
    hide ReadFrame;
    assert forall p | p in t[i..j] :: p in t;
  }

  lemma LegibleAt(files: seq<File>, t: seq<Placed>, i: nat)
    requires Legible(files, t) && i < |t|
    ensures ReadFrame(files, t[i].at) == Ok(t[i].frame) && t[i].at != NOWHERE && t[i] in t
  {
    hide ReadFrame;
    assert t[i] in t;
  }

  lemma BackwardStep(files: seq<File>, d: Id, p: Pointer, f: Frame, seqNo: nat, checkpoint: nat, rest: seq<Pointer>)
    requires seqNo > checkpoint && p != NOWHERE && ReadFrame(files, p) == Ok(f) && f.id == d && f.seqNo == seqNo
    requires f.previous == NOWHERE || Below(f.previous, p)
    requires Backward(files, d, f.previous, seqNo - 1, checkpoint) == Ok(rest)
    ensures Backward(files, d, p, seqNo, checkpoint) == Ok([p] + rest)
  {
    hide ReadFrame, Below;
  }

  lemma AboveStep(t: seq<Placed>, checkpoint: nat)
    requires t != [] && Last(t).frame.seqNo > checkpoint
    ensures var n := |t| - 1;
            && Above(t, checkpoint) == Above(t[..n], checkpoint) + [t[n]]
            && Positions(Above(t, checkpoint)) == [t[n].at] + Positions(Above(t[..n], checkpoint))
  {
    var n := |t| - 1;
    var a := Above(t[..n], checkpoint);
    assert Above(t, checkpoint) == a + [t[n]];
    hide Above;
    Sequences.Unsnoc(a, t[n]);
  }

  /** The backward walk never meets a missing frame: it visits exactly the frames above the checkpoint. */
  lemma {:induction false} BackwardExact(files: seq<File>, d: Id, t: seq<Placed>, checkpoint: nat)
    requires Thread(t) && Legible(files, t) && (forall p | p in t :: p.frame.id == d)
    requires t != [] ==> t[0].frame.seqNo <= checkpoint + 1
    ensures t != [] ==>
      Backward(files, d, Last(t).at, Last(t).frame.seqNo, checkpoint) == Ok(Positions(Above(t, checkpoint)))
    decreases |t|
  {
    hide ReadFrame, Thread, Backward, Above, Positions, Legible, Below;
    if t != [] {
      var n := |t| - 1;
      if Last(t).frame.seqNo > checkpoint {
        LegibleAt(files, t, n);
        AboveStep(t, checkpoint);
        PreviousOf(t, n);
        if n > 0 {
          LegiblePart(files, t, 0, n, d);
          assert t[0..n] == t[..n];
          ThreadTake(t, n);
          BackwardExact(files, d, t[..n], checkpoint);
        } else {
          BackwardDone(files, d, t, checkpoint);
        }
        BackwardStep(files, d, t[n].at, t[n].frame, t[n].frame.seqNo, checkpoint, Positions(Above(t[..n], checkpoint)));
      } else {
        BackwardNone(files, d, t, checkpoint);
      }
    }
  }

  lemma BackwardDone(files: seq<File>, d: Id, t: seq<Placed>, checkpoint: nat)
    requires |t| == 1 && t[0].frame.seqNo == checkpoint + 1
    ensures Backward(files, d, t[0].frame.previous, t[0].frame.seqNo - 1, checkpoint) ==
        Ok(Positions(Above(t[..0], checkpoint)))
  {
    hide ReadFrame;
  }

  lemma BackwardNone(files: seq<File>, d: Id, t: seq<Placed>, checkpoint: nat)
    requires t != [] && Last(t).frame.seqNo <= checkpoint
    ensures Backward(files, d, Last(t).at, Last(t).frame.seqNo, checkpoint) == Ok(Positions(Above(t, checkpoint)))
  {
    hide ReadFrame;
  }

  lemma PreviousOf(t: seq<Placed>, n: nat)
    requires Thread(t) && n < |t|
    ensures t[n].frame.previous == NOWHERE || Below(t[n].frame.previous, t[n].at)
    ensures n > 0 ==> t[n].frame.previous == t[n - 1].at && t[n].frame.seqNo == t[n - 1].frame.seqNo + 1
  {
    assert LinkedAt(t, n);
  }

  lemma {:induction false} PositionsSnoc(t: seq<Placed>, i: nat)
    requires i < |t|
    ensures |Positions(t)| == |t| && Positions(t)[i] == t[|t| - 1 - i].at
    decreases |t|
  {
    if |t| > 1 {
      PositionsSnoc(t[..|t| - 1], if i > 0 then i - 1 else 0);
    }
  }

  lemma {:induction false} PositionsCons(t: seq<Placed>)
    requires t != []
    ensures Positions(t) == Positions(t[1..]) + [t[0].at]
    decreases |t|
  {
    if |t| > 1 {
      var n := |t| - 1;
      assert t[..n][1..] == t[1..][..n - 1] && Last(t[1..]) == t[n];
      PositionsCons(t[..n]);
    } else {
      assert t[1..] == [] && t[..0] == [];
    }
  }

  lemma ForwardStep(files: seq<File>, pointers: seq<Pointer>, p: Pointer, f: Frame, next: nat, rest: seq<Raw>)
    requires ReadFrame(files, p) == Ok(f) && f.seqNo == next && Forward(files, pointers, next + 1) == Ok(rest)
    ensures Forward(files, pointers + [p], next) == Ok([f.raw] + rest)
  {
    hide ReadFrame;
    Sequences.Unsnoc(pointers, p);
  }

  /** The forward pass reads the records of those frames in order. */
  lemma {:induction false} ForwardExact(files: seq<File>, t: seq<Placed>, next: nat)
    requires Legible(files, t) && forall i | 0 <= i < |t| :: t[i].frame.seqNo == next + i
    ensures Forward(files, Positions(t), next) == Ok(Raws(t))
    decreases |t|
  {
    hide ReadFrame, Positions, Forward, Legible, Raws;
    if t == [] {
      ForwardNone(files, t, next);
    } else {
      PositionsCons(t);
      LegibleAt(files, t, 0);
      LegiblePart(files, t, 1, |t|, t[0].frame.id);
      assert t[1..|t|] == t[1..];
      ForwardExact(files, t[1..], next + 1);
      ForwardStep(files, Positions(t[1..]), t[0].at, t[0].frame, next, Raws(t[1..]));
      RawsCons(t);
    }
  }

  lemma ForwardNone(files: seq<File>, t: seq<Placed>, next: nat)
    requires t == []
    ensures Forward(files, Positions(t), next) == Ok(Raws(t))
  {
    assert Raws(t) == [];
  }

  lemma RawsCons(t: seq<Placed>)
    requires t != []
    ensures Raws(t) == [t[0].frame.raw] + Raws(t[1..])
  {
  }

  lemma SuffixSnoc<T>(t: seq<T>, k: nat)
    requires k < |t|
    ensures t[k..] == t[..|t| - 1][k..] + [t[|t| - 1]]
  {
  }

  /** Above a checkpoint a thread is one of its suffixes. */
  lemma {:induction false} AboveSuffix(t: seq<Placed>, checkpoint: nat) returns (k: nat)
    requires Thread(t)
    ensures k <= |t| && Above(t, checkpoint) == t[k..]
    ensures forall i | 0 <= i < |t| :: i < k <==> t[i].frame.seqNo <= checkpoint
    decreases |t|
  {
    hide Thread, Positions;
    if t == [] {
      k := 0;
    } else if Last(t).frame.seqNo <= checkpoint {
      k := |t|;
      forall i | 0 <= i < |t| ensures t[i].frame.seqNo <= checkpoint { ThreadNumbers(t, i, |t| - 1); }
    } else {
      var n := |t| - 1;
      ThreadTake(t, n);
      k := AboveSuffix(t[..n], checkpoint);
      SuffixSnoc(t, k);
    }
  }

  // A thread that holds every record of a history above a floor.
  predicate Reaches(t: seq<Placed>, history: seq<Raw>, floor: nat) {
    && Matches(t, history) && floor <= |history|
    && (t == [] ==> |history| == floor)
    && (t != [] ==> t[0].frame.seqNo <= floor + 1 && Last(t).frame.seqNo == |history|)
  }

  /**
   The two passes together yield exactly the records above the floor in order, which is
   also what filtering the log forwards yields.
   */
  lemma ReplayExact(files: seq<File>, d: Id, t: seq<Placed>, history: seq<Raw>, floor: nat)
    requires Thread(t) && Legible(files, t) && (forall p | p in t :: p.frame.id == d)
    requires Reaches(t, history, floor)
    ensures Raws(Above(t, floor)) == history[floor..]
    ensures t != [] ==> Backward(files, d, Last(t).at, |history|, floor) == Ok(Positions(Above(t, floor)))
    ensures Forward(files, Positions(Above(t, floor)), floor + 1) == Ok(history[floor..])
  {
    hide ReadFrame, Thread, Backward, Forward, Positions, Above, Raws, Legible, Matches;
    BackwardExact(files, d, t, floor);
    var k := AboveSuffix(t, floor);
    LegiblePart(files, t, k, |t|, d);
    assert t[k..|t|] == t[k..];
    NumbersAbove(t, k, floor);
    ForwardExact(files, t[k..], floor + 1);
    RawsAbove(t, k, history, floor);
  }

  lemma NumbersAbove(t: seq<Placed>, k: nat, floor: nat)
    requires Thread(t) && k <= |t| && forall i | 0 <= i < |t| :: i < k <==> t[i].frame.seqNo <= floor
    requires t != [] ==> t[0].frame.seqNo <= floor + 1
    ensures forall i | k <= i < |t| :: t[i].frame.seqNo == floor + 1 + i - k
    ensures forall i | 0 <= i < |t| - k :: t[k..][i].frame.seqNo == floor + 1 + i
  {
    hide Thread;
    forall i | k <= i < |t| ensures t[i].frame.seqNo == floor + 1 + i - k {
      ThreadNumbers(t, k, i);
      if k > 0 { ThreadNumbers(t, k - 1, k); }
    }
  }

  lemma RawsAbove(t: seq<Placed>, k: nat, history: seq<Raw>, floor: nat)
    requires Reaches(t, history, floor) && k <= |t|
    requires forall i | 0 <= i < |t| :: i < k <==> t[i].frame.seqNo <= floor
    requires forall i | k <= i < |t| :: t[i].frame.seqNo == floor + 1 + i - k
    ensures Raws(t[k..]) == history[floor..]
  {
    var u := t[k..];
    forall i | 0 <= i < |u| ensures floor + i < |history| && Raws(u)[i] == history[floor + i] {
      assert t[k + i] in t;
    }
    if t == [] {
      assert |history| == floor;
    } else {
      assert t[|t| - 1] == Last(t);
    }
  }
}
