/**
 What the steps of the log do to one member's thread and to the records it carries.
 */
module ThreadLaws {
  import opened LogLayout
  import opened LogState
  import Sequences

  // ------------------------------------------------------- the stable prefix

  /** `Until` is exactly the frames up to an LSN. */
  lemma {:induction false} UntilExact(t: seq<Placed>, lsn: nat)
    requires Thread(t)
    ensures forall i | 0 <= i < |t| :: t[i].frame.lsn <= lsn <==> i < |Until(t, lsn)|
    decreases |t|
  {
    if t != [] {
      var n := |t| - 1;
      if t[n].frame.lsn <= lsn {
        forall i | 0 <= i < |t| ensures t[i].frame.lsn <= lsn { ThreadNumbers(t, i, n); }
      } else {
        ThreadTake(t, n);
        UntilExact(t[..n], lsn);
      }
    }
  }

  lemma UntilAll(t: seq<Placed>, lsn: nat)
    requires t == [] || Last(t).frame.lsn <= lsn
    ensures Until(t, lsn) == t
  {
  }

  lemma UntilSnoc(t: seq<Placed>, p: Placed, lsn: nat)
    requires p.frame.lsn > lsn
    ensures Until(t + [p], lsn) == Until(t, lsn)
  {
    Sequences.Unsnoc(t, p);
  }

  // Of a prefix that keeps everything up to an LSN.
  lemma UntilTake(t: seq<Placed>, k: nat, lsn: nat)
    requires Thread(t) && k <= |t| && (k < |t| ==> t[k].frame.lsn > lsn)
    ensures Until(t, lsn) == Until(t[..k], lsn)
  {
    UntilExact(t, lsn);
    ThreadTake(t, k);
    UntilExact(t[..k], lsn);
    var a, b := Until(t, lsn), Until(t[..k], lsn);
    hide Until, Thread;
    assert k < |t| ==> !(t[k].frame.lsn <= lsn);
    assert |a| < k ==> t[..k][|a|] == t[|a|];
    assert |b| < k ==> t[..k][|b|] == t[|b|];
    assert a == t[..|a|] && b == t[..k][..|b|];
  }

  lemma UntilMembers(t: seq<Placed>, lsn: nat, p: Placed)
    requires Thread(t)
    ensures p in Until(t, lsn) <==> p in t && p.frame.lsn <= lsn
  {
    UntilExact(t, lsn);
    UntilIndex(t, lsn);
    hide Until, Thread;
    var n := |Until(t, lsn)|;
    if p in t {
      var i :| 0 <= i < |t| && t[i] == p;
      if i < n { assert t[..n][i] == p; }
    }
  }

  lemma UntilMonotone(t: seq<Placed>, lsn: nat, later: nat)
    requires Thread(t) && lsn <= later
    ensures |Until(t, lsn)| <= |Until(t, later)|
  {
    UntilExact(t, lsn);
    UntilExact(t, later);
    var n := |Until(t, lsn)|;
    hide Until, Thread;
    if n > 0 { assert t[n - 1].frame.lsn <= lsn; }
  }

  lemma UntilIndex(t: seq<Placed>, lsn: nat)
    ensures Until(t, lsn) == t[..|Until(t, lsn)|]
  {
  }

  /** The durable end of a member only moves forward as more becomes stable. */
  lemma DurableMonotone(t: seq<Placed>, accepted: seq<Raw>, checkpoint: nat, keep: nat, safe: nat, lsn: nat, later: nat)
    requires Thread(t) && Carries(t, accepted, checkpoint, keep, safe) && safe <= lsn <= later
    ensures checkpoint <= DurableSeq(t, checkpoint, lsn) <= DurableSeq(t, checkpoint, later) <= |accepted|
  {
    DurableBounds(t, accepted, checkpoint, keep, safe, lsn);
    DurableBounds(t, accepted, checkpoint, keep, safe, later);
    UntilMonotone(t, lsn, later);
    UntilIndex(t, lsn);
    UntilIndex(t, later);
    var a, b := |Until(t, lsn)|, |Until(t, later)|;
    if 0 < a { ThreadNumbers(t, a - 1, b - 1); }
    hide Until, Thread, Carries;
  }

  lemma DurableBounds(t: seq<Placed>, accepted: seq<Raw>, checkpoint: nat, keep: nat, safe: nat, lsn: nat)
    requires Thread(t) && Carries(t, accepted, checkpoint, keep, safe) && safe <= lsn
    ensures checkpoint <= DurableSeq(t, checkpoint, lsn) <= |accepted|
  {
    UntilIndex(t, lsn);
    UntilExact(t, lsn);
    var k := |Until(t, lsn)|;
    hide Until;
    if 0 < k {
      assert t[k - 1] in t;
      if k < |t| {
        assert t[k] in t;
        ThreadNumbers(t, k - 1, k);
      }
    }
  }

  // ------------------------------------------------------------ the records

  lemma CarriesLater(t: seq<Placed>, accepted: seq<Raw>, checkpoint: nat, keep: nat, safe: nat, later: nat)
    requires Carries(t, accepted, checkpoint, keep, safe) && safe <= later
    ensures Carries(t, accepted, checkpoint, keep, later)
  {
  }

  lemma CarriesSnoc(t: seq<Placed>, p: Placed, accepted: seq<Raw>, checkpoint: nat, keep: nat, safe: nat)
    requires Carries(t, accepted, checkpoint, keep, safe)
    requires p.frame.seqNo == |accepted| + 1
    ensures Carries(t + [p], accepted + [p.frame.raw], checkpoint, keep, safe)
  {
    var longer := accepted + [p.frame.raw];
    forall q | q in t + [p]
      ensures 1 <= q.frame.seqNo <= |longer| && q.frame.raw == longer[q.frame.seqNo - 1]
      ensures q.frame.seqNo <= checkpoint ==> q.frame.lsn <= safe
    {
      if q in t { assert 1 <= q.frame.seqNo <= |accepted|; }
    }
  }

  /** Reclaiming frames at or below `keep` loses nothing a replay needs. */
  lemma CarriesDrop(t: seq<Placed>, k: nat, accepted: seq<Raw>, checkpoint: nat, keep: nat, safe: nat)
    requires Thread(t) && Carries(t, accepted, checkpoint, keep, safe)
    requires k <= |t| && (k > 0 ==> t[k - 1].frame.seqNo <= keep)
    ensures Carries(t[k..], accepted, checkpoint, keep, safe)
    ensures DurableSeq(t[k..], checkpoint, safe) == DurableSeq(t, checkpoint, safe)
  {
    assert forall p | p in t[k..] :: p in t;
    if 0 < k < |t| { ThreadNumbers(t, k - 1, k); }
    DropDurable(t, k, accepted, checkpoint, keep, safe);
  }

  lemma DropDurable(t: seq<Placed>, k: nat, accepted: seq<Raw>, checkpoint: nat, keep: nat, safe: nat)
    requires Thread(t) && Carries(t, accepted, checkpoint, keep, safe)
    requires k <= |t| && (k > 0 ==> t[k - 1].frame.seqNo <= keep)
    ensures DurableSeq(t[k..], checkpoint, safe) == DurableSeq(t, checkpoint, safe)
  {
    ThreadDrop(t, k);
    UntilExact(t, safe);
    UntilExact(t[k..], safe);
    UntilIndex(t, safe);
    UntilIndex(t[k..], safe);
    var a, b := |Until(t, safe)|, |Until(t[k..], safe)|;
    hide Until;
    if k > 0 {
      assert t[k - 1] in t;
      assert a >= k;
    }
    assert b < |t| - k ==> t[k..][b] == t[k + b];
    assert a < |t| ==> t[k..][a - k] == t[a];
    assert b == a - k;
    if b == 0 && k > 0 {
      if k < |t| {
        assert t[k] in t;
        ThreadNumbers(t, k - 1, k);
      } else {
        assert t[k - 1] == Last(t);
      }
    }
  }

  /** Losing an unstable tail keeps a prefix of the records, with everything sealed or stable in it. */
  lemma CarriesCut(t: seq<Placed>, k: nat, accepted: seq<Raw>, checkpoint: nat, keep: nat, safe: nat, end: nat)
    requires Thread(t) && Carries(t, accepted, checkpoint, keep, safe)
    requires k <= |t| && (k < |t| ==> t[k].frame.lsn > safe) && safe <= end && (k > 0 ==> t[k - 1].frame.lsn <= end)
    ensures checkpoint <= LastSeq(t[..k], checkpoint) <= |accepted|
    ensures Carries(t[..k], accepted[..LastSeq(t[..k], checkpoint)], checkpoint, keep, end)
    ensures DurableSeq(t, checkpoint, safe) <= DurableSeq(t[..k], checkpoint, end) == LastSeq(t[..k], checkpoint)
  {
    if k < |t| { assert t[k] in t; }
    if 0 < k {
      assert t[k - 1] in t;
      if k < |t| { ThreadNumbers(t, k - 1, k); }
    }
    var last := LastSeq(t[..k], checkpoint);
    forall p | p in t[..k]
      ensures 1 <= p.frame.seqNo <= last && p.frame.raw == accepted[..last][p.frame.seqNo - 1]
      ensures p.frame.seqNo <= checkpoint ==> p.frame.lsn <= end
    {
      var i :| 0 <= i < k && t[i] == p;
      ThreadNumbers(t, i, k - 1);
      assert p in t;
    }
    CutDurable(t, k, checkpoint, safe, end);
    hide DurableSeq;
  }

  lemma CutDurable(t: seq<Placed>, k: nat, checkpoint: nat, safe: nat, end: nat)
    requires Thread(t) && k <= |t| && (k < |t| ==> t[k].frame.lsn > safe) && (k > 0 ==> t[k - 1].frame.lsn <= end)
    requires forall p | p in t :: p.frame.seqNo <= checkpoint ==> p.frame.lsn <= safe
    requires k > 0 ==> checkpoint <= t[k - 1].frame.seqNo
    ensures DurableSeq(t, checkpoint, safe) <= DurableSeq(t[..k], checkpoint, end) == LastSeq(t[..k], checkpoint)
  {
    UntilTake(t, k, safe);
    UntilAll(t[..k], end);
    UntilIndex(t[..k], safe);
    var a := |Until(t[..k], safe)|;
    hide Until;
    if a > 0 { ThreadNumbers(t, a - 1, k - 1); }
  }

  /** Sealing more records or releasing more of the archive keeps what is carried. */
  lemma CarriesSealed(t: seq<Placed>, accepted: seq<Raw>, checkpoint: nat, keep: nat, safe: nat, sealed: nat, kept: nat)
    requires Carries(t, accepted, checkpoint, keep, safe)
    requires checkpoint <= sealed <= |accepted| && keep <= kept <= sealed
    requires forall p | p in t :: p.frame.seqNo <= sealed ==> p.frame.lsn <= safe
    ensures Carries(t, accepted, sealed, kept, safe)
  {
  }

  // ------------------------------------------------------------ the archive

  lemma {:induction false} RawBytesConcat(a: seq<Raw>, b: seq<Raw>)
    ensures RawBytes(a + b) == RawBytes(a) + RawBytes(b)
    decreases |b|
  {
    if b == [] {
      Sequences.Neutral(a);
    } else {
      var n := |b| - 1;
      RawBytesConcat(a, b[..n]);
      Sequences.Snoc(b);
      Sequences.Associative(a, b[..n], [b[n]]);
      Sequences.Unsnoc(a + b[..n], b[n]);
    }
  }

  /** Moving the release along the chain moves no later cursor. */
  lemma CursorShift(released: Cursor, accepted: seq<Raw>, through: nat, s: nat)
    requires released.seqNo <= through <= s <= |accepted|
    ensures CursorAt(CursorAt(released, accepted, through), accepted, s) == CursorAt(released, accepted, s)
  {
    hide RawBytes;
    var a, b := accepted[released.seqNo..through], accepted[through..s];
    assert accepted[released.seqNo..s] == a + b;
    RawBytesConcat(a, b);
  }

  lemma CursorSelf(c: Cursor, accepted: seq<Raw>)
    requires c.seqNo <= |accepted|
    ensures CursorAt(c, accepted, c.seqNo) == c
  {
  }

  /** A shorter history has an earlier archive end. */
  lemma CursorMonotone(released: Cursor, accepted: seq<Raw>, k: nat)
    requires released.seqNo <= k <= |accepted| && CursorFits(released, accepted)
    ensures CursorFits(released, accepted[..k])
    ensures CursorAt(released, accepted[..k], k) == CursorAt(released, accepted, k)
    ensures CursorAt(released, accepted, k).offset <= CursorAt(released, accepted, |accepted|).offset
  {
    hide RawBytes;
    var r := released.seqNo;
    assert accepted[r..|accepted|] == accepted[r..k] + accepted[k..];
    assert accepted[..k][r..k] == accepted[r..k];
    RawBytesConcat(accepted[r..k], accepted[k..]);
  }
}
