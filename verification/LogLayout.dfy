/**
 The live part of the shared log: segments of frames, the position of every frame,
 and the thread of one member through them.

 A thread is linked when every frame points back to the member's frame before it.
 Appending extends threads, losing a tail keeps a prefix of each and reclaiming old
 segments keeps a suffix, and all three keep them linked.
 */
module LogLayout {
  import opened Prelude
  import opened FrameFormat
  import opened FrameRun
  import Sequences

  datatype Placed = Placed(frame: Frame, at: Pointer)

  /**
   One segment: its header when `whole`, the accepted frames, then the bytes of an
   interrupted write that a boundary record fences off.
   */
  datatype Seg = Seg(number: nat, first: nat, frames: seq<Frame>, whole: bool, junk: seq<Byte>)

  function End(s: Seg): nat { if s.whole then SEGMENT_HEADER + Size(s.frames) else 0 }
  function Next(s: Seg): nat { s.first + |s.frames| }
  function Length(s: Seg): nat { End(s) + |s.junk| }

  function Content(owner: Owner, s: Seg): (bytes: seq<Byte>)
    ensures |bytes| == Length(s)
  {
    HeaderLength(owner, s.number, s.first);
    (if s.whole then EncodeHeader(owner, s.number, s.first) + EncodeAll(s.frames) else []) + s.junk
  }

  predicate SegOk(s: Seg) {
    && 1 <= s.number <= U64_MAX && 1 <= s.first <= U64_MAX
    && LegalFrames(s.frames)
    && (forall k | 0 <= k < |s.frames| :: s.frames[k].lsn == s.first + k)
    && (s.whole ==> s.junk == [] || Unfinished(s.junk))
    && (!s.whole ==> s.frames == [] && |s.junk| < SEGMENT_HEADER)
  }

  // Whether a segment may stand at this place of the log.
  predicate InPlace(segs: seq<Seg>, i: nat)
    requires i < |segs|
  {
    && SegOk(segs[i])
    && (i == 0 ==> segs[i].whole || segs[i].first == 1)
    && (i > 0 ==> segs[i].number == segs[i - 1].number + 1 && segs[i].first == Next(segs[i - 1]))
  }

  predicate SegsOk(segs: seq<Seg>) { forall i | 0 <= i < |segs| :: InPlace(segs, i) }

  lemma SegsTake(segs: seq<Seg>, n: nat)
    requires SegsOk(segs) && n <= |segs|
    ensures SegsOk(segs[..n])
  {
    hide SegOk;
    forall i | 0 <= i < n ensures InPlace(segs[..n], i) { assert InPlace(segs, i); }
  }

  lemma SegsDrop(segs: seq<Seg>, n: nat)
    requires SegsOk(segs) && n < |segs| && (segs[n].whole || segs[n].first == 1)
    ensures SegsOk(segs[n..])
  {
    hide SegOk;
    forall i | 0 <= i < |segs| - n ensures InPlace(segs[n..], i) { assert InPlace(segs, n + i); }
  }

  lemma SegsAdd(segs: seq<Seg>, s: Seg)
    requires SegsOk(segs) && SegOk(s)
    requires segs == [] ==> s.whole || s.first == 1
    requires segs != [] ==> s.number == segs[|segs| - 1].number + 1 && s.first == Next(segs[|segs| - 1])
    ensures SegsOk(segs + [s])
  {
    hide SegOk;
    forall i | 0 <= i <= |segs| ensures InPlace(segs + [s], i) { if i < |segs| { assert InPlace(segs, i); } }
  }

  lemma {:induction false} FirstsIncrease(segs: seq<Seg>, i: nat, j: nat)
    requires SegsOk(segs) && i < j < |segs|
    ensures Next(segs[i]) <= segs[j].first
    ensures segs[i].number < segs[j].number
    decreases j
  {
    hide SegOk;
    assert InPlace(segs, j);
    if i < j - 1 { FirstsIncrease(segs, i, j - 1); }
  }

  lemma {:induction false} NumbersConsecutive(segs: seq<Seg>, i: nat)
    requires SegsOk(segs) && i < |segs|
    ensures segs[i].number == segs[0].number + i
    decreases i
  {
    hide SegOk;
    assert InPlace(segs, i);
    if i > 0 { NumbersConsecutive(segs, i - 1); }
  }

  // -------------------------------------------------------------- positions

  function Places(number: nat, fs: seq<Frame>): seq<Placed> {
    if fs == [] then [] else
    var n := |fs| - 1;
    Places(number, fs[..n]) + [Placed(fs[n], Pointer(number, SEGMENT_HEADER + Size(fs[..n])))]
  }

  function Live(segs: seq<Seg>): seq<Placed> {
    if segs == [] then [] else
    var n := |segs| - 1;
    Live(segs[..n]) + Places(segs[n].number, segs[n].frames)
  }

  // The frames of one member, oldest first.
  function Of(ps: seq<Placed>, d: Id): seq<Placed> {
    if ps == [] then [] else
    var n := |ps| - 1;
    Of(ps[..n], d) + (if ps[n].frame.id == d then [ps[n]] else [])
  }

  lemma PlacesSnoc(number: nat, fs: seq<Frame>, f: Frame)
    ensures Places(number, fs + [f]) == Places(number, fs) + [Placed(f, Pointer(number, SEGMENT_HEADER + Size(fs)))]
  {
    Sequences.Unsnoc(fs, f);
    hide Size;
  }

  lemma LiveSnoc(segs: seq<Seg>, s: Seg)
    ensures Live(segs + [s]) == Live(segs) + Places(s.number, s.frames)
  {
    Sequences.Unsnoc(segs, s);
    hide Places;
  }

  lemma {:induction false} LiveConcat(a: seq<Seg>, b: seq<Seg>)
    ensures Live(a + b) == Live(a) + Live(b)
    decreases |b|
  {
    if b == [] {
      Sequences.Neutral(a);
      Sequences.Neutral(Live(a));
    } else {
      hide *;
      var n := |b| - 1;
      LiveConcat(a, b[..n]);
      Sequences.Snoc(b);
      Sequences.Associative(a, b[..n], [b[n]]);
      LiveSnoc(a + b[..n], b[n]);
      LiveSnoc(b[..n], b[n]);
      Sequences.Associative(Live(a), Live(b[..n]), Places(b[n].number, b[n].frames));
    }
  }

  lemma LiveNone(segs: seq<Seg>)
    requires segs == []
    ensures Live(segs) == []
  {
  }

  lemma OfSnoc(ps: seq<Placed>, p: Placed, d: Id)
    ensures Of(ps + [p], d) == Of(ps, d) + (if p.frame.id == d then [p] else [])
  {
    Sequences.Unsnoc(ps, p);
  }

  lemma {:induction false} OfConcat(a: seq<Placed>, b: seq<Placed>, d: Id)
    ensures Of(a + b, d) == Of(a, d) + Of(b, d)
    decreases |b|
  {
    if b == [] {
      Sequences.Neutral(a);
      Sequences.Neutral(Of(a, d));
    } else {
      hide *;
      var n := |b| - 1;
      OfConcat(a, b[..n], d);
      Sequences.Snoc(b);
      Sequences.Associative(a, b[..n], [b[n]]);
      OfSnoc(a + b[..n], b[n], d);
      OfSnoc(b[..n], b[n], d);
      Sequences.Associative(Of(a, d), Of(b[..n], d), if b[n].frame.id == d then [b[n]] else []);
    }
  }

  lemma {:induction false} OfMembers(ps: seq<Placed>, d: Id, p: Placed)
    ensures p in Of(ps, d) <==> p in ps && p.frame.id == d
    decreases |ps|
  {
    if ps != [] {
      Sequences.Snoc(ps);
      OfMembers(ps[..|ps| - 1], d, p);
    }
  }

  // ------------------------------------------------------------------ order

  // Everything lies before this position and this sequence number.
  predicate Before(ps: seq<Placed>, at: Pointer, lsn: nat) {
    forall p | p in ps :: Below(p.at, at) && p.frame.lsn < lsn
  }

  function Here(s: Seg): Pointer { Pointer(s.number, SEGMENT_HEADER + Size(s.frames)) }

  lemma {:induction false} PlacesBefore(number: nat, first: nat, fs: seq<Frame>)
    requires forall k | 0 <= k < |fs| :: fs[k].lsn == first + k
    ensures Before(Places(number, fs), Pointer(number, SEGMENT_HEADER + Size(fs)), first + |fs|)
    ensures forall p | p in Places(number, fs) :: p.at.segment == number && p.frame.lsn >= first
    decreases |fs|
  {
    if fs != [] {
      PlacesBefore(number, first, fs[..|fs| - 1]);
    }
  }

  lemma BeforeConcat(a: seq<Placed>, b: seq<Placed>, at: Pointer, lsn: nat)
    requires Before(a, at, lsn) && Before(b, at, lsn)
    ensures Before(a + b, at, lsn)
  {
  }

  lemma BeforeLater(ps: seq<Placed>, at: Pointer, lsn: nat, later: Pointer, next: nat)
    requires Before(ps, at, lsn) && (at == later || Below(at, later)) && lsn <= next
    ensures Before(ps, later, next)
  {
  }

  /** Every live frame lies before the end of the last segment. */
  lemma {:induction false} LiveBefore(segs: seq<Seg>)
    requires SegsOk(segs) && segs != []
    ensures Before(Live(segs), Here(segs[|segs| - 1]), Next(segs[|segs| - 1]))
    decreases |segs|
  {
    hide Places, Size, Before, Live, LegalFrames;
    var n := |segs| - 1;
    var s := segs[n];
    assert InPlace(segs, n);
    PlacesBefore(s.number, s.first, s.frames);
    Sequences.Snoc(segs);
    LiveSnoc(segs[..n], s);
    if n > 0 {
      assert InPlace(segs, n - 1);
      SegsTake(segs, n);
      LiveBefore(segs[..n]);
      var e := segs[n - 1];
      BeforeLater(Live(segs[..n]), Here(e), Next(e), Here(s), Next(s));
      BeforeConcat(Live(segs[..n]), Places(s.number, s.frames), Here(s), Next(s));
    } else {
      LiveNone(segs[..n]);
      Sequences.Neutral(Places(s.number, s.frames));
    }
  }

  lemma ThreadBefore(ps: seq<Placed>, d: Id, at: Pointer, lsn: nat)
    requires Before(ps, at, lsn)
    ensures Before(Of(ps, d), at, lsn)
  {
    forall p | p in Of(ps, d) ensures p in ps { OfMembers(ps, d, p); }
  }

  // ---------------------------------------------------------------- threads

  // A frame and its member's next one.
  predicate Linked(p: Placed, q: Placed) {
    && q.frame.seqNo == p.frame.seqNo + 1 && q.frame.previous == p.at
    && Below(p.at, q.at) && p.frame.lsn < q.frame.lsn
  }

  // The predecessor of the oldest live frame may be gone, but it was earlier.
  predicate Loose(q: Placed) { q.frame.previous == NOWHERE || Below(q.frame.previous, q.at) }

  predicate LinkedAt(t: seq<Placed>, i: nat)
    requires i < |t|
  {
    if i == 0 then Loose(t[0]) else Linked(t[i - 1], t[i])
  }

  predicate Thread(t: seq<Placed>) { forall i | 0 <= i < |t| :: LinkedAt(t, i) }

  lemma ThreadTake(t: seq<Placed>, k: nat)
    requires Thread(t) && k <= |t|
    ensures Thread(t[..k])
  {
    forall i | 0 <= i < k ensures LinkedAt(t[..k], i) { assert LinkedAt(t, i); }
  }

  lemma ThreadDrop(t: seq<Placed>, k: nat)
    requires Thread(t) && k <= |t|
    ensures Thread(t[k..])
  {
    forall i | 0 <= i < |t| - k ensures LinkedAt(t[k..], i) { assert LinkedAt(t, k + i); }
  }

  lemma ThreadSnoc(t: seq<Placed>, p: Placed)
    requires Thread(t) && (if t == [] then Loose(p) else Linked(t[|t| - 1], p))
    ensures Thread(t + [p])
  {
    forall i | 0 <= i <= |t| ensures LinkedAt(t + [p], i) { if i < |t| { assert LinkedAt(t, i); } }
  }

  /** Sequence numbers along a thread are consecutive and LSNs increase. */
  lemma {:induction false} ThreadNumbers(t: seq<Placed>, i: nat, j: nat)
    requires Thread(t) && i <= j < |t|
    ensures t[j].frame.seqNo == t[i].frame.seqNo + (j - i)
    ensures t[i].frame.lsn <= t[j].frame.lsn && (i < j ==> t[i].frame.lsn < t[j].frame.lsn)
    decreases j
  {
    if i < j {
      assert LinkedAt(t, j);
      ThreadNumbers(t, i, j - 1);
    }
  }

  // The last sequence number of a member whose sealed prefix ends at `checkpoint`.
  function LastSeq(t: seq<Placed>, checkpoint: nat): nat {
    if t == [] then checkpoint else t[|t| - 1].frame.seqNo
  }

  // Losing every frame from some LSN on.
  function Until(t: seq<Placed>, lsn: nat): (r: seq<Placed>)
    ensures r <= t
  {
    if t == [] then [] else if t[|t| - 1].frame.lsn <= lsn then t else
    var r := Until(t[..|t| - 1], lsn);
    assert r <= t[..|t| - 1];
    r
  }

  // ------------------------------------------------------------- accounting

  // The last sequence number of every member of a segment.
  function Summary(fs: seq<Frame>): map<Id, nat> {
    if fs == [] then map[] else
    var n := |fs| - 1;
    Summary(fs[..n])[fs[n].id := fs[n].seqNo]
  }

  const SEGMENT_CHARGE: nat := 128
  const ENTRY_CHARGE: nat := 96

  function SegmentCharge(s: Seg): nat { SEGMENT_CHARGE + ENTRY_CHARGE * |Summary(s.frames)| }

  function Storage(segs: seq<Seg>): nat {
    if segs == [] then 0 else Storage(segs[..|segs| - 1]) + Length(segs[|segs| - 1])
  }

  function Charges(segs: seq<Seg>): nat {
    if segs == [] then 0 else Charges(segs[..|segs| - 1]) + SegmentCharge(segs[|segs| - 1])
  }

  lemma SummarySnoc(fs: seq<Frame>, f: Frame)
    ensures Summary(fs + [f]) == Summary(fs)[f.id := f.seqNo]
    ensures |Summary(fs + [f])| == |Summary(fs)| + (if f.id in Summary(fs) then 0 else 1)
  {
    Sequences.Unsnoc(fs, f);
    var m := Summary(fs);
    assert m[f.id := f.seqNo].Keys == m.Keys + {f.id};
  }

  lemma AccountSnoc(segs: seq<Seg>, s: Seg)
    ensures Storage(segs + [s]) == Storage(segs) + Length(s)
    ensures Charges(segs + [s]) == Charges(segs) + SegmentCharge(s)
  {
    Sequences.Unsnoc(segs, s);
    hide Length, SegmentCharge;
  }

  // The members named in each segment.
  function Named(segs: seq<Seg>): set<(nat, Id)> {
    set i: nat, k: nat | i < |segs| && k < |segs[i].frames| :: (i, segs[i].frames[k].id)
  }

  lemma {:induction false} SummaryNames(fs: seq<Frame>)
    ensures forall d :: d in Summary(fs) <==> exists k: nat :: k < |fs| && fs[k].id == d
  {
    if fs != [] {
      var n := |fs| - 1;
      SummaryNames(fs[..n]);
      forall d ensures d in Summary(fs) <==> exists k: nat :: k < |fs| && fs[k].id == d {
        if k: nat :| k < |fs| && fs[k].id == d { assert k == n || fs[..n][k].id == d; }
        if k: nat :| k < n && fs[..n][k].id == d { assert fs[k].id == d; }
      }
    }
  }

  /** The index is charged 128 for each segment, and 96 for each member that a segment names. */
  lemma {:induction false} ChargesAre(segs: seq<Seg>)
    ensures Charges(segs) == 128 * |segs| + 96 * |Named(segs)|
    decreases |segs|
  {
    if segs != [] {
      hide Summary;
      var n := |segs| - 1;
      var last := Summary(segs[n].frames);
      ChargesAre(segs[..n]);
      SummaryNames(segs[n].frames);
      NamedOnce(segs);
    }
  }

  lemma NamedOnce(segs: seq<Seg>)
    requires segs != []
    ensures |Named(segs)| == |Named(segs[..|segs| - 1])| + |Summary(segs[|segs| - 1].frames)|
  {
    hide Summary, Named;
    var n := |segs| - 1;
    var ids := Summary(segs[n].frames).Keys;
    PairedCount(n, ids);
    NamedSplit(segs);
  }

  lemma NamedSplit(segs: seq<Seg>)
    requires segs != []
    ensures var n := |segs| - 1;
            var added := set d | d in Summary(segs[n].frames).Keys :: (n, d);
            Named(segs) == Named(segs[..n]) + added && Named(segs[..n]) !! added
  {
    hide Summary;
    var n := |segs| - 1;
    var front, ids := Named(segs[..n]), Summary(segs[n].frames).Keys;
    SummaryNames(segs[n].frames);
    forall x: (nat, Id) ensures x in Named(segs) <==> x in front || (x.0 == n && x.1 in ids) {
      assert x.0 < n ==> segs[..n][x.0] == segs[x.0];
    }
  }

  lemma {:induction false} PairedCount(n: nat, ds: set<Id>)
    ensures |set d | d in ds :: (n, d)| == |ds|
    decreases |ds|
  {
    if ds != {} {
      var e :| e in ds;
      var rest := ds - {e};
      PairedCount(n, rest);
      assert (set d | d in ds :: (n, d)) == (set d | d in rest :: (n, d)) + {(n, e)};
    } else {
      assert (set d | d in ds :: (n, d)) == {};
    }
  }

  lemma {:induction false} AccountConcat(a: seq<Seg>, b: seq<Seg>)
    ensures Storage(a + b) == Storage(a) + Storage(b) && Charges(a + b) == Charges(a) + Charges(b)
    decreases |b|
  {
    if b == [] {
      Sequences.Neutral(a);
    } else {
      hide *;
      var n := |b| - 1;
      AccountConcat(a, b[..n]);
      Sequences.Snoc(b);
      Sequences.Associative(a, b[..n], [b[n]]);
      AccountSnoc(a + b[..n], b[n]);
      AccountSnoc(b[..n], b[n]);
    }
  }

  /** A segment's summary is exactly the end of each member's thread in it. */
  lemma {:induction false} SummaryIsThreadEnd(number: nat, fs: seq<Frame>, d: Id)
    ensures var t := Of(Places(number, fs), d);
            && (d in Summary(fs) <==> t != [])
            && (t != [] ==> t[|t| - 1].frame.seqNo == Summary(fs)[d])
    decreases |fs|
  {
    if fs != [] {
      var n := |fs| - 1;
      SummaryIsThreadEnd(number, fs[..n], d);
      Sequences.Snoc(fs);
      PlacesSnoc(number, fs[..n], fs[n]);
      SummarySnoc(fs[..n], fs[n]);
      hide Places, Summary, Of, Size;
      OfSnoc(Places(number, fs[..n]), Placed(fs[n], Pointer(number, SEGMENT_HEADER + Size(fs[..n]))), d);
    } else {
      assert Places(number, fs) == [];
    }
  }
}
