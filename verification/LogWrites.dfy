/** Flushing, syncing and rolling as functions on the state, and that they keep the invariant. */
module LogWrites {
  import opened Prelude
  import opened FrameFormat
  import opened FrameRun
  import opened LogLayout
  import opened LogState
  import opened ThreadLaws
  import Sequences

  predicate Healthy(w: World) { OnDisk(w) && InMemory(w) }

  function WriteTo(files: seq<File>, bytes: seq<Byte>): seq<File>
    requires files != []
  {
    files[|files| - 1 := File(Last(files).number, Last(files).bytes + bytes)]
  }

  // ------------------------------------------------------------------ flush

  function Flushed(w: World): World
    requires w.disk.files != []
  {
    w.(disk := w.disk.(files := WriteTo(w.disk.files, w.mem.buffer)), mem := w.mem.(buffer := []))
  }

  // The same write, interrupted after `n` bytes.
  function HalfFlushed(w: World, n: nat): World
    requires w.disk.files != [] && n <= |w.mem.buffer|
  {
    w.(disk := w.disk.(files := WriteTo(w.disk.files, w.mem.buffer[..n])))
  }

  lemma HalfFlushOnDisk(w: World, n: nat)
    requires Healthy(w) && n <= |w.mem.buffer|
    ensures w.disk.files != [] && OnDisk(HalfFlushed(w, n))
  {
    hide SegOk, Threads, Live, Content, SegsOk, BoundariesOk, StableOk, Accounts, Members, Tails;
  }

  lemma FlushActive(options: Options, owner: Owner, mem: Memory, files: seq<File>, stable: nat, past: History)
    requires Active(options, owner, mem, files, stable, past)
    ensures Active(options, owner, mem.(buffer := []), WriteTo(files, mem.buffer), stable, past)
  {
    hide Fenced, Content, Length, Next;
    Sequences.Neutral(Last(WriteTo(files, mem.buffer)).bytes);
  }

  /** Flushing moves the buffer to the file and keeps everything else. */
  lemma FlushKeeps(w: World)
    requires Healthy(w)
    ensures w.disk.files != [] && Healthy(Flushed(w))
  {
    hide Threads, Live, Layout, Accounts, Members, Tails, Active, WriteTo;
    HalfFlushOnDisk(w, |w.mem.buffer|);
    Sequences.Neutral(w.mem.buffer);
    FlushActive(w.options, w.owner, w.mem, w.disk.files, w.disk.stable, w.past);
    assert HalfFlushed(w, |w.mem.buffer|).disk == Flushed(w).disk;
  }

  // ------------------------------------------------------------------- sync

  function Synced(w: World): World
    requires w.disk.files != []
  {
    w.(disk := w.disk.(stable := |Last(w.disk.files).bytes|), past := w.past.(safe := w.mem.lsn),
       mem := w.mem.(durable := w.mem.lsn))
  }

  lemma StoredLater(t: seq<Placed>, d: Id, ledger: Ledger, accepted: map<Id, seq<Raw>>, safe: nat, later: nat)
    requires Stored(t, d, ledger, accepted, safe) && safe <= later
    ensures Stored(t, d, ledger, accepted, later)
  {
    hide Thread, Carries, Keep, DurableSeq;
    if d !in ledger.retirements {
      var sealed := |ledger.manifests[d]|;
      CarriesLater(t, accepted[d], sealed, Keep(ledger, d), safe, later);
      DurableMonotone(t, accepted[d], sealed, Keep(ledger, d), safe, safe, later);
    }
  }

  lemma ThreadsLater(ledger: Ledger, live: seq<Placed>, accepted: map<Id, seq<Raw>>, safe: nat, later: nat)
    requires Threads(ledger, live, accepted, safe) && safe <= later
    ensures Threads(ledger, live, accepted, later)
  {
    hide Stored, Of, RegistryOk, AllRegistered;
    forall d | d in ledger.manifests ensures Stored(Of(live, d), d, ledger, accepted, later) {
      StoredLater(Of(live, d), d, ledger, accepted, safe, later);
    }
  }

  lemma KnownSynced(t: seq<Placed>, d: Id, m: Member, ledger: Ledger, accepted: map<Id, seq<Raw>>, durable: nat,
                    lsn: nat, here: Pointer)
    requires Known(t, d, m, ledger, accepted, durable, here) && durable <= lsn && Before(t, here, lsn + 1)
    ensures Known(t, d, m, ledger, accepted, lsn, here)
  {
    if t != [] { assert Last(t) in t; }
    hide Until, CursorAt;
  }

  lemma MembersSynced(members: map<Id, Member>, live: seq<Placed>, ledger: Ledger, accepted: map<Id, seq<Raw>>,
                      durable: nat, lsn: nat, here: Pointer)
    requires Members(members, live, ledger, accepted, durable, here) && durable <= lsn && Before(live, here, lsn + 1)
    ensures Members(members, live, ledger, accepted, lsn, here)
  {
    hide Known, Before, Of;
    forall d | d in members ensures Known(Of(live, d), d, members[d], ledger, accepted, lsn, here) {
      ThreadBefore(live, d, here, lsn + 1);
      KnownSynced(Of(live, d), d, members[d], ledger, accepted, durable, lsn, here);
    }
  }

  lemma SyncedLayout(options: Options, owner: Owner, mem: Memory, disk: Disk, past: History)
    requires Layout(owner, disk, past) && Active(options, owner, mem, disk.files, disk.stable, past) && mem.buffer == []
    ensures Layout(owner, disk.(stable := |Last(disk.files).bytes|), past.(safe := mem.lsn))
  {
    var s := Last(past.segs);
    hide SegsOk, BoundariesOk, Content, Size, Content;
    assert Last(disk.files).bytes == Content(owner, s);
    assert s.frames[..|s.frames|] == s.frames;
  }

  lemma SyncedActive(options: Options, owner: Owner, mem: Memory, files: seq<File>, stable: nat, past: History)
    requires Active(options, owner, mem, files, stable, past) && mem.buffer == []
    ensures Active(options, owner, mem.(durable := mem.lsn), files, |Last(files).bytes|, past.(safe := mem.lsn))
  {
    hide Content, Size;
    assert Last(files).bytes == Content(owner, Last(past.segs));
  }

  lemma ActiveBounds(w: World)
    requires Healthy(w)
    ensures w.past.segs != [] && w.disk.files != []
    ensures w.past.safe == w.mem.durable <= w.mem.lsn && w.mem.lsn + 1 == Next(Last(w.past.segs))
    ensures Before(Live(w.past.segs), Here(Last(w.past.segs)), w.mem.lsn + 1)
  {
    hide Threads, Accounts, Members, Tails, FilesOk, BoundariesOk, SegsOk, Size, Content, Live, Before;
    LiveBefore(w.past.segs);
  }

  /** After a sync everything accepted is durable. */
  lemma SyncKeeps(w: World)
    requires Healthy(w) && w.mem.buffer == []
    ensures w.disk.files != [] && Healthy(Synced(w))
  {
    ActiveBounds(w);
    SyncedLayout(w.options, w.owner, w.mem, w.disk, w.past);
    SyncedActive(w.options, w.owner, w.mem, w.disk.files, w.disk.stable, w.past);
    hide Layout, Threads, Accounts, Active, Members, Tails, Live, Before;
    ThreadsLater(w.disk.ledger, Live(w.past.segs), w.past.accepted, w.past.safe, w.mem.lsn);
    MembersSynced(w.mem.members, Live(w.past.segs), w.disk.ledger, w.past.accepted, w.mem.durable, w.mem.lsn,
                  Here(Last(w.past.segs)));
  }
}
