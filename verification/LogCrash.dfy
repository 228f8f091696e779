/**
 A crash: the last file keeps any byte prefix that covers what was stable, or vanishes
 if its creation never became stable. Memory is lost.
 */
module LogCrash {
  import opened Prelude
  import opened FrameFormat
  import opened FrameRun
  import opened LogLayout
  import opened LogState
  import opened ThreadLaws
  import Sequences

  /** What is left of a segment whose file was cut to `n` bytes. */
  function Survivor(owner: Owner, s: Seg, n: nat): Seg
    requires n <= Length(s)
  {
    if Fenced(s) then s
    else if n < SEGMENT_HEADER then Seg(s.number, s.first, [], false, Content(owner, s)[..n])
    else
      var k := Whole(s.frames, n - SEGMENT_HEADER);
      Seg(s.number, s.first, s.frames[..k], true, Content(owner, s)[SEGMENT_HEADER + Size(s.frames[..k])..n])
  }

  /** The surviving bytes are exactly the surviving segment, with the torn rest fenced off. */
  lemma SurvivorContent(owner: Owner, s: Seg, n: nat)
    requires SegOk(s) && n <= Length(s) && (Fenced(s) ==> n == Length(s))
    requires (n < SEGMENT_HEADER && !Fenced(s) ==> s.frames == [])
    ensures SegOk(Survivor(owner, s, n)) && Content(owner, Survivor(owner, s, n)) == Content(owner, s)[..n]
    ensures Length(Survivor(owner, s, n)) == n && Next(Survivor(owner, s, n)) <= Next(s)
  {
    hide Content, SegOk, LegalFrames;
    if Fenced(s) {
      Sequences.Neutral(Content(owner, s));
    } else if n < SEGMENT_HEADER {
      ShortSurvivor(owner, s, n);
    } else {
      WholeSurvivor(owner, s, n);
    }
  }

  lemma ShortSurvivor(owner: Owner, s: Seg, n: nat)
    requires SegOk(s) && !Fenced(s) && n < SEGMENT_HEADER && n <= Length(s)
    ensures SegOk(Survivor(owner, s, n)) && Content(owner, Survivor(owner, s, n)) == Content(owner, s)[..n]
    ensures Length(Survivor(owner, s, n)) == n && Next(Survivor(owner, s, n)) <= Next(s)
  {
    hide EncodeHeader, LegalFrame, EncodeAll, Size;
    Sequences.Neutral(Content(owner, s)[..n]);
  }

  lemma SurvivorSeg(s: Seg, k: nat, junk: seq<Byte>)
    requires SegOk(s) && s.whole && k <= |s.frames| && (junk == [] || Unfinished(junk))
    ensures SegOk(Seg(s.number, s.first, s.frames[..k], true, junk))
  {
    hide LegalFrame, Unfinished;
  }

  lemma WholeSurvivor(owner: Owner, s: Seg, n: nat)
    requires SegOk(s) && !Fenced(s) && SEGMENT_HEADER <= n <= Length(s)
    ensures SegOk(Survivor(owner, s, n)) && Content(owner, Survivor(owner, s, n)) == Content(owner, s)[..n]
    ensures Length(Survivor(owner, s, n)) == n && Next(Survivor(owner, s, n)) <= Next(s)
  {
    hide EncodeHeader, EncodeAll, Size, Unfinished, Whole, LegalFrames;
    HeaderLength(owner, s.number, s.first);
    var h := EncodeHeader(owner, s.number, s.first);
    var run := EncodeAll(s.frames);
    var cut := n - SEGMENT_HEADER;
    assert LegalFrames(s.frames);
    CutRun(s.frames, cut);
    var k := Whole(s.frames, cut);
    assert Content(owner, s) == h + run;
    Behind(h, run, Size(s.frames[..k]), cut);
    SurvivorSeg(s, k, run[Size(s.frames[..k])..cut]);
    Sequences.Associative(h, EncodeAll(s.frames[..k]), run[Size(s.frames[..k])..cut]);
    assert (h + run)[..n] == h + run[..cut];
  }

  lemma Behind<T>(h: seq<T>, run: seq<T>, i: nat, j: nat)
    requires i <= j <= |run|
    ensures (h + run)[|h| + i..|h| + j] == run[i..j]
  {
  }

  // The LSN of the last frame up to the end of a segment.
  function LastLsn(s: Seg): nat { if Next(s) == 0 then 0 else Next(s) - 1 }

  // ---------------------------------------------------------- the positions

  lemma {:induction false} PlacesLength(number: nat, fs: seq<Frame>)
    ensures |Places(number, fs)| == |fs|
    decreases |fs|
  {
    if fs != [] { PlacesLength(number, fs[..|fs| - 1]); }
  }

  // The frames that a cut loses.
  lemma {:induction false} PlacesCut(number: nat, first: nat, fs: seq<Frame>, k: nat)
    requires k <= |fs| && forall i | 0 <= i < |fs| :: fs[i].lsn == first + i
    ensures exists lost :: Places(number, fs) == Places(number, fs[..k]) + lost && forall p | p in lost ::
      p.frame.lsn >= first + k
    decreases |fs|
  {
    if k == |fs| {
      Sequences.Neutral(fs);
      Sequences.Neutral(Places(number, fs));
    } else {
      var n := |fs| - 1;
      PlacesCut(number, first, fs[..n], k);
      Sequences.Take(fs, k, n);
      var lost :| Places(number, fs[..n]) == Places(number, fs[..k]) + lost && forall p | p in lost ::
        p.frame.lsn >= first + k;
      var p := Placed(fs[n], Pointer(number, SEGMENT_HEADER + Size(fs[..n])));
      Sequences.Associative(Places(number, fs[..k]), lost, [p]);
      assert Places(number, fs) == Places(number, fs[..k]) + (lost + [p]);
    }
  }

  // ---------------------------------------------------------------- the step

  // Each member keeps the records up to its last surviving frame.
  function Recovered(accepted: map<Id, seq<Raw>>, ledger: Ledger, live: seq<Placed>): map<Id, seq<Raw>> {
    map d | d in accepted && d in ledger.manifests ::
      var last := LastSeq(Of(live, d), |ledger.manifests[d]|);
      if last <= |accepted[d]| then accepted[d][..last] else accepted[d]
  }

  function CutFiles(files: seq<File>, n: nat): seq<File>
    requires files != [] && n <= |Last(files).bytes|
  {
    files[|files| - 1 := File(Last(files).number, Last(files).bytes[..n])]
  }

  function CutSegs(owner: Owner, segs: seq<Seg>, n: nat): seq<Seg>
    requires segs != [] && n <= Length(Last(segs))
  {
    segs[..|segs| - 1] + [Survivor(owner, Last(segs), n)]
  }

  function Crashed(w: World, n: nat): World
    requires w.past.segs != [] && w.disk.files != [] && n <= |Last(w.disk.files).bytes|
    requires n <= Length(Last(w.past.segs))
  {
    var segs := CutSegs(w.owner, w.past.segs, n);
    w.(disk := w.disk.(files := CutFiles(w.disk.files, n), stable := n),
       past := w.past.(segs := segs, accepted := Recovered(w.past.accepted, w.disk.ledger, Live(segs)),
                       safe := LastLsn(Last(segs))))
  }

  predicate MayCut(owner: Owner, disk: Disk, past: History, n: nat) {
    && Layout(owner, disk, past) && past.segs != [] && disk.files != []
    && disk.stable <= n <= |Last(disk.files).bytes| && n <= Length(Last(past.segs))
  }

  /** Everything on disk is settled: no accepted byte is outside the files. */
  predicate Settled(owner: Owner, disk: Disk, past: History) {
    && Layout(owner, disk, past)
    && (if past.segs == [] then true else
        && disk.files != [] && Last(disk.files).bytes == Content(owner, Last(past.segs))
        && past.safe + 1 == Next(Last(past.segs)) && disk.stable == |Last(disk.files).bytes|)
  }

  lemma CutReady(owner: Owner, disk: Disk, past: History, n: nat)
    requires MayCut(owner, disk, past, n)
    ensures var s := Last(past.segs);
            && SegOk(s) && (Fenced(s) ==> n == Length(s)) && (n < SEGMENT_HEADER && !Fenced(s) ==> s.frames == [])
            && Last(disk.files).bytes[..n] == Content(owner, s)[..n]
            && (n < SEGMENT_HEADER && |past.segs| == 1 ==> s.first == 1)
            && s.first <= past.safe + 1 <= Next(s)
  {
    hide BoundariesOk, Content, SegOk, Size;
    assert InPlace(past.segs, |past.segs| - 1);
  }

  /** What is stable survives every cut. */
  lemma StableSurvives(owner: Owner, s: Seg, stable: nat, safe: nat, n: nat)
    requires SegOk(s) && s.first <= safe + 1 <= Next(s) && stable <= n <= Length(s)
    requires s.first <= safe ==> SEGMENT_HEADER + Size(s.frames[..safe + 1 - s.first]) <= stable
    ensures safe + 1 <= Next(Survivor(owner, s, n)) && s.first == Survivor(owner, s, n).first
    ensures s.number == Survivor(owner, s, n).number
  {
    hide SegOk, Content, Size, Whole;
    if !Fenced(s) && SEGMENT_HEADER <= n && s.first <= safe {
      var k, j := Whole(s.frames, n - SEGMENT_HEADER), safe + 1 - s.first;
      if k < j { SizeMonotone(s.frames, k + 1, j); }
    }
  }

  lemma CutSegsOk(owner: Owner, segs: seq<Seg>, n: nat)
    requires SegsOk(segs) && segs != [] && n <= Length(Last(segs))
    requires SegOk(Survivor(owner, Last(segs), n))
    requires Survivor(owner, Last(segs), n).number == Last(segs).number
    requires Survivor(owner, Last(segs), n).first == Last(segs).first
    requires Fenced(Last(segs)) || SEGMENT_HEADER <= n || |segs| > 1 || Last(segs).first == 1
    ensures SegsOk(CutSegs(owner, segs, n))
  {
    hide SegOk, Content, Whole, Size;
    var m := |segs| - 1;
    forall i | 0 <= i <= m ensures InPlace(CutSegs(owner, segs, n), i) { assert InPlace(segs, i); }
  }

  lemma CutFilesOk(owner: Owner, files: seq<File>, segs: seq<Seg>, stable: nat, n: nat)
    requires FilesOk(owner, files, segs, stable) && segs != [] && stable <= n <= |Last(files).bytes|
    requires n <= Length(Last(segs))
    requires var s := Survivor(owner, Last(segs), n);
             && Last(files).bytes[..n] == Content(owner, s) && Length(s) == n && s.number == Last(segs).number
             && (n < SEGMENT_HEADER ==> s.frames == [])
    ensures FilesOk(owner, CutFiles(files, n), CutSegs(owner, segs, n), n)
  {
    hide Content, Survivor, Fenced;
    assert LastFileOk(owner, Last(CutFiles(files, n)).bytes, Last(CutSegs(owner, segs, n)), n);
  }

  lemma CutBoundaries(owner: Owner, boundaries: map<nat, Boundary>, segs: seq<Seg>, n: nat)
    requires BoundariesOk(owner, boundaries, segs) && segs != [] && n <= Length(Last(segs))
    requires Survivor(owner, Last(segs), n).number == Last(segs).number
    ensures BoundariesOk(owner, boundaries, CutSegs(owner, segs, n))
  {
    hide BoundaryOf, Content, Whole, Size;
    var m := |segs| - 1;
    var after := CutSegs(owner, segs, n);
    forall i | 0 <= i <= m && after[i].number in boundaries
      ensures Fenced(after[i]) && boundaries[after[i].number] == BoundaryOf(owner, after[i])
    {
      assert segs[i].number in boundaries;
    }
  }

  lemma CutStable(owner: Owner, segs: seq<Seg>, stable: nat, safe: nat, n: nat)
    requires segs != [] && n <= Length(Last(segs))
    requires var s := Survivor(owner, Last(segs), n);
             && Length(s) == n && s.first == Last(segs).first && SegOk(s)
             && (n < SEGMENT_HEADER && |segs| == 1 ==> s.first == 1)
    ensures var s := Survivor(owner, Last(segs), n);
            StableOk(CutSegs(owner, segs, n), n, LastLsn(s))
  {
    hide Survivor, LegalFrames, Unfinished, Size;
    var s := Survivor(owner, Last(segs), n);
    assert s.frames[..|s.frames|] == s.frames;
  }

  lemma ShortSurvives(owner: Owner, s: Seg, n: nat)
    requires n <= Length(s) && (n < SEGMENT_HEADER && !Fenced(s) ==> s.frames == []) && (Fenced(s) ==> n == Length(s))
    requires SegOk(s)
    ensures n < SEGMENT_HEADER ==> Survivor(owner, s, n).frames == []
  {
    hide Content, Whole, Size, LegalFrames, Unfinished;
  }

  /** After the cut the files hold exactly the surviving segments. */
  lemma CutLayout(owner: Owner, disk: Disk, past: History, n: nat, accepted: map<Id, seq<Raw>>)
    requires MayCut(owner, disk, past, n)
    ensures var segs := CutSegs(owner, past.segs, n);
            Settled(owner, disk.(files := CutFiles(disk.files, n), stable := n),
                    past.(segs := segs, accepted := accepted, safe := LastLsn(Last(segs))))
    ensures past.safe + 1 <= Next(Last(CutSegs(owner, past.segs, n)))
  {
    hide SegsOk, FilesOk, BoundariesOk, Content, SegOk, Survivor, Fenced, Size, Length, Next;
    CutReady(owner, disk, past, n);
    var s := Last(past.segs);
    SurvivorContent(owner, s, n);
    StableSurvives(owner, s, disk.stable, past.safe, n);
    ShortSurvives(owner, s, n);
    CutSegsOk(owner, past.segs, n);
    CutFilesOk(owner, disk.files, past.segs, disk.stable, n);
    CutBoundaries(owner, disk.boundaries, past.segs, n);
    CutStable(owner, past.segs, disk.stable, past.safe, n);
  }

  // ------------------------------------------------------------- the threads

  /** The surviving frames are a prefix of the live ones, and everything lost was later. */
  lemma CutLive(owner: Owner, segs: seq<Seg>, n: nat) returns (lost: seq<Placed>)
    requires SegsOk(segs) && segs != [] && n <= Length(Last(segs))
    requires (n < SEGMENT_HEADER && !Fenced(Last(segs)) ==> Last(segs).frames == [])
    ensures Live(segs) == Live(CutSegs(owner, segs, n)) + lost
    ensures forall p | p in lost :: p.frame.lsn >= Next(Survivor(owner, Last(segs), n))
  {
    hide Live, Places, Content, Whole, Size, LegalFrames, Unfinished;
    var m := |segs| - 1;
    var s := segs[m];
    var after := Survivor(owner, s, n);
    assert InPlace(segs, m);
    Sequences.Snoc(segs);
    LiveSnoc(segs[..m], s);
    LiveSnoc(segs[..m], after);
    assert after.number == s.number && after.first == s.first;
    assert after.frames == s.frames[..|after.frames|];
    PlacesCut(s.number, s.first, s.frames, |after.frames|);
    lost :| Places(s.number, s.frames) == Places(s.number, after.frames) + lost && forall p | p in lost ::
      p.frame.lsn >= s.first + |after.frames|;
    Sequences.Associative(Live(segs[..m]), Places(s.number, after.frames), lost);
  }

  lemma CutStored(a: seq<Placed>, b: seq<Placed>, d: Id, ledger: Ledger, accepted: map<Id, seq<Raw>>, after: map<Id,
                  seq<Raw>>, safe: nat, end: nat)
    requires Stored(a + b, d, ledger, accepted, safe) && safe <= end
    requires (forall p | p in a :: p.frame.lsn <= end) && (forall p | p in b :: p.frame.lsn > end)
    requires d in after <==> d in accepted
    requires d in accepted && LastSeq(a, |ledger.manifests[d]|) <= |accepted[d]| ==>
      after[d] == accepted[d][..LastSeq(a, |ledger.manifests[d]|)]
    ensures Stored(a, d, ledger, after, end)
    ensures d in accepted ==>
      after[d] <= accepted[d] && DurableSeq(a + b, |ledger.manifests[d]|, safe) <= |after[d]|
  {
    hide Thread, Carries, DurableSeq, Keep, CursorFits;
    var t := a + b;
    var k := |a|;
    Sequences.Parts(a, b);
    ThreadTake(t, k);
    if d !in ledger.retirements {
      assert k < |t| ==> t[k] == b[0];
      assert k > 0 ==> t[k - 1] == a[k - 1];
      CarriesCut(t, k, accepted[d], |ledger.manifests[d]|, Keep(ledger, d), safe, end);
      if d in ledger.archives {
        CursorMonotone(ledger.archives[d].released, accepted[d], LastSeq(a, |ledger.manifests[d]|));
      }
    }
  }

  lemma RecoveredAt(accepted: map<Id, seq<Raw>>, ledger: Ledger, live: seq<Placed>, d: Id)
    requires d in accepted ==> d in ledger.manifests
    ensures var after := Recovered(accepted, ledger, live);
            && (d in after <==> d in accepted)
            && (d in accepted && LastSeq(Of(live, d), |ledger.manifests[d]|) <= |accepted[d]| ==>
                  after[d] == accepted[d][..LastSeq(Of(live, d), |ledger.manifests[d]|)])
  {
    hide Of, LastSeq;
  }

  lemma CutThreads(ledger: Ledger, a: seq<Placed>, b: seq<Placed>, accepted: map<Id, seq<Raw>>, safe: nat, end: nat)
    requires Threads(ledger, a + b, accepted, safe) && safe <= end
    requires (forall p | p in a :: p.frame.lsn <= end) && (forall p | p in b :: p.frame.lsn > end)
    ensures Threads(ledger, a, Recovered(accepted, ledger, a), end)
    ensures forall d | d in accepted ::
      && d in Recovered(accepted, ledger, a) && Recovered(accepted, ledger, a)[d] <= accepted[d]
      && DurableSeq(Of(a + b, d), |ledger.manifests[d]|, safe) <= |Recovered(accepted, ledger, a)[d]|
  {
    hide Stored, Of, RegistryOk, Recovered, DurableSeq, LastSeq;
    var after := Recovered(accepted, ledger, a);
    forall d | d in ledger.manifests
      ensures Stored(Of(a, d), d, ledger, after, end)
      ensures d in accepted ==>
        d in after && after[d] <= accepted[d] && DurableSeq(Of(a + b, d), |ledger.manifests[d]|, safe) <= |after[d]|
    {
      OfConcat(a, b, d);
      forall p | p in Of(a, d) ensures p.frame.lsn <= end { OfMembers(a, d, p); }
      forall p | p in Of(b, d) ensures p.frame.lsn > end { OfMembers(b, d, p); }
      RecoveredAt(accepted, ledger, a, d);
      CutStored(Of(a, d), Of(b, d), d, ledger, accepted, after, safe, end);
    }
    forall d | d in after ensures d in ledger.manifests { RecoveredKeys(accepted, ledger, a); }
  }

  lemma RecoveredKeys(accepted: map<Id, seq<Raw>>, ledger: Ledger, live: seq<Placed>)
    ensures forall d | d in Recovered(accepted, ledger, live) :: d in accepted && d in ledger.manifests
  {
    hide Of, LastSeq;
  }

  // How far a member's records are sealed or stable.
  function DurableOf(w: World, d: Id): nat
    requires d in w.disk.ledger.manifests
  {
    DurableSeq(Of(Live(w.past.segs), d), |w.disk.ledger.manifests[d]|, w.past.safe)
  }

  /** A crash at any byte keeps, of every member, a prefix with all its durable records. */
  lemma CrashKeeps(w: World, n: nat)
    requires OnDisk(w) && MayCut(w.owner, w.disk, w.past, n)
    ensures OnDisk(Crashed(w, n)) && Settled(w.owner, Crashed(w, n).disk, Crashed(w, n).past)
    ensures forall d | d in w.past.accepted ::
      && d in w.disk.ledger.manifests && d in Crashed(w, n).past.accepted
      && Crashed(w, n).past.accepted[d] <= w.past.accepted[d]
      && DurableOf(w, d) <= |Crashed(w, n).past.accepted[d]|
  {
    hide Layout, Live, Of, Survivor, Fenced, Length, Next, CutFiles, CutSegs, Recovered, DurableSeq, SegOk, Stored,
         RegistryOk, AllRegistered;
    var segs := CutSegs(w.owner, w.past.segs, n);
    CrashOrder(w, n);
    var lost := CrashLive(w, n);
    CutThreads(w.disk.ledger, Live(segs), lost, w.past.accepted, w.past.safe, LastLsn(Last(segs)));
    CutLayout(w.owner, w.disk, w.past, n, Recovered(w.past.accepted, w.disk.ledger, Live(segs)));
  }

  lemma CrashOrder(w: World, n: nat)
    requires MayCut(w.owner, w.disk, w.past, n)
    ensures CutSegs(w.owner, w.past.segs, n) != []
    ensures w.past.safe <= LastLsn(Last(CutSegs(w.owner, w.past.segs, n)))
    ensures forall p | p in Live(CutSegs(w.owner, w.past.segs, n)) ::
      p.frame.lsn <= LastLsn(Last(CutSegs(w.owner, w.past.segs, n)))
  {
    hide Live, Survivor, FilesOk, BoundariesOk, StableOk, SegsOk, Content;
    CutLayout(w.owner, w.disk, w.past, n, map[]);
    LiveBefore(CutSegs(w.owner, w.past.segs, n));
  }

  lemma CrashLive(w: World, n: nat) returns (lost: seq<Placed>)
    requires MayCut(w.owner, w.disk, w.past, n)
    ensures Live(w.past.segs) == Live(CutSegs(w.owner, w.past.segs, n)) + lost
    ensures forall p | p in lost :: p.frame.lsn > LastLsn(Last(CutSegs(w.owner, w.past.segs, n)))
  {
    hide Live, Survivor, FilesOk, BoundariesOk, StableOk, SegsOk, Content;
    CutReady(w.owner, w.disk, w.past, n);
    CutLayout(w.owner, w.disk, w.past, n, map[]);
    lost := CutLive(w.owner, w.past.segs, n);
    LastInPlace(CutSegs(w.owner, w.past.segs, n));
  }

  lemma LastInPlace(segs: seq<Seg>)
    requires SegsOk(segs) && segs != []
    ensures SegOk(Last(segs)) && 1 <= Last(segs).first
  {
    hide LegalFrames, Unfinished;
    assert InPlace(segs, |segs| - 1);
  }

  // ------------------------------------------------ a file that never was

  // The last file was being created, or found torn at birth, and its directory entry is lost.
  predicate MayVanish(owner: Owner, disk: Disk, past: History) {
    Layout(owner, disk, past) && past.segs != [] && disk.files != [] && disk.stable == 0
      && Last(past.segs).number !in disk.boundaries
  }

  function Vanished(w: World): World
    requires w.past.segs != [] && w.disk.files != []
  {
    var m := |w.past.segs| - 1;
    var files := w.disk.files[..|w.disk.files| - 1];
    w.(disk := w.disk.(files := files, stable := if files == [] then 0 else |Last(files).bytes|),
       past := w.past.(segs := w.past.segs[..m]))
  }

  lemma VanishBoundaries(owner: Owner, boundaries: map<nat, Boundary>, segs: seq<Seg>)
    requires BoundariesOk(owner, boundaries, segs) && SegsOk(segs) && segs != [] && Last(segs).number !in boundaries
    ensures BoundariesOk(owner, boundaries, segs[..|segs| - 1])
  {
    hide Fenced, BoundaryOf, SegOk;
    var m := |segs| - 1;
    var left := segs[..m];
    assert segs[m].number !in boundaries;
    assert InPlace(segs, m);
    forall n | n in boundaries ensures left != [] && left[0].number <= n <= Last(left).number {
      assert segs[0].number <= n < segs[m].number;
    }
    forall i | 0 <= i < |left| && left[i].number in boundaries
      ensures Fenced(left[i]) && boundaries[left[i].number] == BoundaryOf(owner, left[i])
    {
      assert segs[i].number in boundaries;
    }
    forall i | 0 <= i < |left| - 1 && Fenced(left[i]) ensures left[i].number in boundaries {
      assert Fenced(segs[i]);
    }
  }

  lemma VanishStable(segs: seq<Seg>, stable: nat, safe: nat)
    requires SegsOk(segs) && StableOk(segs, stable, safe) && segs != [] && stable == 0 && Last(segs).frames == []
    ensures var left := segs[..|segs| - 1];
            && StableOk(left, if left == [] then 0 else Length(Last(left)), safe)
            && (left != [] ==> safe + 1 == Next(Last(left)))
  {
    hide LegalFrames, Unfinished, Size;
    var m := |segs| - 1;
    assert InPlace(segs, m);
    if m > 0 {
      assert InPlace(segs, m - 1);
      var s := segs[m - 1];
      assert s.frames[..|s.frames|] == s.frames;
      assert m == 1 ==> InPlace(segs, 0);
    }
  }

  lemma VanishFiles(owner: Owner, files: seq<File>, segs: seq<Seg>, stable: nat)
    requires FilesOk(owner, files, segs, stable) && SegsOk(segs) && segs != []
    ensures var left, kept := segs[..|segs| - 1], files[..|files| - 1];
            FilesOk(owner, kept, left, if left == [] then 0 else Length(Last(left)))
  {
    hide Content, LegalFrames, Unfinished, Size;
    var m := |segs| - 1;
    if m > 0 {
      assert InPlace(segs, m - 1);
      assert files[m - 1].bytes == Content(owner, segs[m - 1]);
      assert LastFileOk(owner, files[m - 1].bytes, segs[m - 1], Length(segs[m - 1]));
    }
  }

  /** A lost directory entry takes no record with it. */
  lemma VanishKeeps(w: World)
    requires OnDisk(w) && MayVanish(w.owner, w.disk, w.past)
    ensures OnDisk(Vanished(w)) && Settled(w.owner, Vanished(w).disk, Vanished(w).past)
    ensures Live(Vanished(w).past.segs) == Live(w.past.segs)
  {
    hide Threads, Content, SegOk, Size, BoundariesOk, StableOk, Live, Length, Next, Fenced;
    var segs := w.past.segs;
    SegsTake(segs, |segs| - 1);
    VanishBoundaries(w.owner, w.disk.boundaries, segs);
    VanishStable(segs, w.disk.stable, w.past.safe);
    VanishFiles(w.owner, w.disk.files, segs, w.disk.stable);
    VanishLive(segs);
  }

  lemma VanishLive(segs: seq<Seg>)
    requires segs != [] && Last(segs).frames == []
    ensures Live(segs[..|segs| - 1]) == Live(segs)
  {
    assert Places(Last(segs).number, []) == [];
    Sequences.Neutral(Live(segs[..|segs| - 1]));
  }
}
