/**
 What archives promise about space: no protected history ever takes more than its quota.

 A protected member's records above its release, with their frames' headers and a fixed
 reserve, stay within the quota through every operation and every crash.
 */
module LogQuota {
  import opened Prelude
  import opened FrameFormat
  import opened LogLayout
  import opened LogState
  import opened ThreadLaws
  import opened LogWrites
  import opened LogMembers
  import opened LogArchive
  import opened LogAccept
  import opened LogBatch
  import Sequences

  // What the records above a release take.
  function Taken(released: nat, accepted: seq<Raw>): nat
    requires released <= |accepted|
  {
    8192 + RawBytes(accepted[released..]) + 80 * (|accepted| - released)
  }

  predicate InQuota(a: Authority, accepted: seq<Raw>) {
    a.released.seqNo <= |accepted| && Taken(a.released.seqNo, accepted) <= a.maxBytes
  }

  /** Every protected history is within its quota. */
  predicate Quotas(w: World) {
    forall d | d in w.disk.ledger.archives && d in w.past.accepted ::
      InQuota(w.disk.ledger.archives[d], w.past.accepted[d])
  }

  predicate KeepsQuotas(w: World, v: World) { Quotas(w) ==> Quotas(v) }

  /** The bytes that memory counts for a protection are those its history takes. */
  lemma PinnedIs(w: World, d: Id)
    requires MayRetire(w, d) && w.mem.members[d].archive.Some?
    ensures d in w.past.accepted && d in w.disk.ledger.archives
    ensures var p := w.mem.members[d].archive.value;
      && w.disk.ledger.archives[d] == Authority(p.maxBytes, p.released) && p.released.seqNo <= |w.past.accepted[d]|
      && PinnedBytes(p) == Taken(p.released.seqNo, w.past.accepted[d])
  {
    hide Layout, Active, Accounts, Threads, Tails, Of, Here, DurableSeq, Thread, Carries, RawBytes, Until;
    MemberReady(w, d);
    var accepted := w.past.accepted[d];
    assert accepted[w.mem.members[d].archive.value.released.seqNo..|accepted|] ==
           accepted[w.mem.members[d].archive.value.released.seqNo..];
  }

  lemma TakenMore(released: nat, accepted: seq<Raw>, raws: seq<Raw>)
    requires released <= |accepted|
    ensures Taken(released, accepted + raws) == Taken(released, accepted) + RawBytes(raws) + 80 * |raws|
  {
    hide RawBytes;
    assert (accepted + raws)[released..] == accepted[released..] + raws;
    RawBytesConcat(accepted[released..], raws);
  }

  lemma TakenLess(r: nat, early: seq<Raw>, q: nat, late: seq<Raw>)
    requires r <= q <= |late| && late <= early
    ensures Taken(q, late) <= Taken(r, early)
  {
    hide RawBytes;
    var rest := early[|late|..];
    assert early == late + rest;
    TakenMore(r, late, rest);
    assert late[r..] == late[r..q] + late[q..];
    RawBytesConcat(late[r..q], late[q..]);
  }

  /** Losing records, releasing more and allowing more keep every quota. */
  lemma QuotasShrink(w: World, v: World)
    requires Quotas(w) ==> forall d | d in v.disk.ledger.archives && d in v.past.accepted ::
      && d in w.disk.ledger.archives && d in w.past.accepted && v.past.accepted[d] <= w.past.accepted[d]
      && w.disk.ledger.archives[d].released.seqNo <= v.disk.ledger.archives[d].released.seqNo <= |v.past.accepted[d]|
      && w.disk.ledger.archives[d].maxBytes <= v.disk.ledger.archives[d].maxBytes
    ensures KeepsQuotas(w, v)
  {
    hide Taken;
    if Quotas(w) {
      forall d | d in v.disk.ledger.archives && d in v.past.accepted
        ensures InQuota(v.disk.ledger.archives[d], v.past.accepted[d])
      {
        assert InQuota(w.disk.ledger.archives[d], w.past.accepted[d]);
        TakenLess(w.disk.ledger.archives[d].released.seqNo, w.past.accepted[d],
                  v.disk.ledger.archives[d].released.seqNo, v.past.accepted[d]);
      }
    }
  }

  lemma QuotasSame(w: World, v: World)
    requires v.past.accepted == w.past.accepted && v.disk.ledger.archives == w.disk.ledger.archives
    ensures KeepsQuotas(w, v)
  {
  }

  /** Records that the quota has room for keep it. */
  lemma QuotasAppend(w: World, v: World, d: Id, raws: seq<Raw>)
    requires MayRetire(w, d) && v.disk.ledger.archives == w.disk.ledger.archives && d in w.past.accepted
    requires v.past.accepted == w.past.accepted[d := w.past.accepted[d] + raws]
    requires w.mem.members[d].archive.Some? ==>
      PinnedBytes(w.mem.members[d].archive.value) + RawBytes(raws) + 80 * |raws|
        <= w.mem.members[d].archive.value.maxBytes
    ensures KeepsQuotas(w, v)
  {
    hide Taken, PinnedBytes, MayRetire, RawBytes;
    if Quotas(w) {
      forall e | e in v.disk.ledger.archives && e in v.past.accepted
        ensures InQuota(v.disk.ledger.archives[e], v.past.accepted[e])
      {
        assert InQuota(w.disk.ledger.archives[e], w.past.accepted[e]);
        if e == d {
          ProtectedHere(w, d);
          PinnedIs(w, d);
          TakenMore(w.disk.ledger.archives[d].released.seqNo, w.past.accepted[d], raws);
        }
      }
    }
  }

  lemma ProtectedHere(w: World, d: Id)
    requires MayRetire(w, d)
    ensures d in w.mem.members && (w.mem.members[d].archive.Some? <==> d in w.disk.ledger.archives)
  {
    hide Layout, Active, Accounts, Threads, Tails, Of, Here, DurableSeq, Thread, Carries, CursorAt, Until;
    MemberReady(w, d);
  }

  lemma AppendQuota(w: World, v: World, d: Id, seqNo: nat, raw: Raw)
    requires MayRetire(w, d) && Accepts(w, d, seqNo, raw) && v.disk.ledger == w.disk.ledger && d in w.past.accepted
    requires v.past.accepted == w.past.accepted[d := w.past.accepted[d] + [raw]]
    ensures KeepsQuotas(w, v)
  {
    hide Healthy, PinnedBytes, KeepsQuotas, Trimmed, GrowthOf, IndexGrowthOf;
    RawBytesOne(raw);
    QuotasAppend(w, v, d, [raw]);
  }

  lemma RawBytesOne(raw: Raw)
    ensures RawBytes([raw]) == |raw|
  {
    Sequences.Unsnoc([], raw);
    assert [raw][..0] == [] && RawBytes([]) == 0;
  }

  lemma {:induction false} PlanPinned(segmentBytes: nat, p: Plan, raws: seq<Raw>)
    ensures PlanOf(segmentBytes, p, raws).pinned == p.pinned + RawBytes(raws) + 80 * |raws|
  {
    if raws != [] { PlanPinned(segmentBytes, p, raws[..|raws| - 1]); }
  }

  lemma {:induction false} RawBytesTake(raws: seq<Raw>, k: nat)
    requires k <= |raws|
    ensures RawBytes(raws[..k]) <= RawBytes(raws)
  {
    hide RawBytes;
    RawBytesConcat(raws[..k], raws[k..]);
    Sequences.Cut(raws, k);
  }

  /** A batch that fits, or any first part of it, keeps every quota. */
  lemma BatchQuota(w: World, v: World, d: Id, first: nat, raws: seq<Raw>, k: nat)
    requires MayRetire(w, d) && BatchFits(w, d, first, raws) && v.disk.ledger == w.disk.ledger && k <= |raws|
    requires d in w.past.accepted && v.past.accepted == w.past.accepted[d := w.past.accepted[d] + raws[..k]]
    ensures KeepsQuotas(w, v)
  {
    hide Healthy, PinnedBytes, KeepsQuotas, Trimmed, RawBytes, PlanOf;
    PlanPinned(w.options.segmentBytes, StartPlan(w, d), raws);
    RawBytesTake(raws, k);
    QuotasAppend(w, v, d, raws[..k]);
  }
}
