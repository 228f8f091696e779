/**
 What the buckets of a range are, in terms of its ends, the width and the facts alone; and that
 a bucket reported as complete stays what it is when later rows arrive.
 */
module AggregateMeanings {
  import opened Prelude
  import opened Cells
  import opened Catalog
  import opened Buckets
  import opened Aggregation
  import Sequences

  /** A bucket begins on the grid and ends with its window or the range; it is complete once a row lies behind it. */
  predicate Drawn(latest: Option<I64>, start: int, end: int, width: nat, b: Bucket)
    requires width > 0
  {
    && start <= b.startTs < end && (b.startTs - start) % width == 0
    && b.endTs == (if b.startTs + width <= end then b.startTs + width else end)
    && (b.partial <==> b.endTs != b.startTs + width || (latest.Some? && latest.value < b.endTs))
  }

  /** The buckets of a list of facts over a range: in order, none empty, and every fact of the range in one. */
  ghost predicate Describes(latest: Option<I64>, start: int, end: int, width: nat, kind: ValueType, fs: seq<Fact>,
                            buckets: seq<Bucket>)
    requires width > 0
  {
    && (forall i | 0 <= i < |buckets| :: Drawn(latest, start, end, width, buckets[i]) && Sums(kind, fs, buckets[i]))
    && (forall i, j | 0 <= i < j < |buckets| :: buckets[i].endTs <= buckets[j].startTs)
    && forall f | f in fs && start <= f.ts < end :: exists i :: 0 <= i < |buckets| && Spans(buckets[i], f.ts)
  }

  predicate Spans(b: Bucket, ts: int) { b.startTs <= ts < b.endTs }

  predicate Sums(kind: ValueType, fs: seq<Fact>, b: Bucket) {
    b.samples > 0 && Summarizes(b, kind, Values(InRange(fs, b.startTs, b.endTs)))
  }

  // ------------------------------------------------------------------- meaning

  lemma Multiples(n: nat, width: nat)
    requires width > 0
    ensures (n * width) % width == 0
  {
    var q, r := (n * width) / width, (n * width) % width;
    assert n * width == q * width + r && (q + 1) * width == q * width + width;
    if q < n { MulUp(width, q + 1, n); }
    if n < q { MulUp(width, n + 1, q); }
  }

  lemma WindowDrawn(w: Window, fs: seq<Fact>, n: nat, b: Bucket)
    requires WindowOk(w) && Begin(w, n) < w.end && BucketFor(w, fs, n, b) && Inside(w, fs, n) != []
    ensures Drawn(w.latest, w.start, w.end, w.width, b) && Sums(w.kind, fs, b)
  {
    hide InRange, Summarizes;
    Multiples(n, w.width);
    SumsSamples(b, w.kind, Inside(w, fs, n));
  }

  lemma SumsSamples(b: Bucket, kind: ValueType, fs: seq<Fact>)
    requires Summarizes(b, kind, Values(fs))
    ensures b.samples == |fs|
  {
    hide Least, Greatest, SumOf, Cells.NullCount;
  }

  /** The windows with a fact are listed in order. */
  lemma {:induction false} FilledAre(w: Window, fs: seq<Fact>, n: nat)
    ensures forall i | 0 <= i < |Filled(w, fs, n)| ::
      Filled(w, fs, n)[i] < n && Inside(w, fs, Filled(w, fs, n)[i]) != []
    ensures forall i, j | 0 <= i < j < |Filled(w, fs, n)| :: Filled(w, fs, n)[i] < Filled(w, fs, n)[j]
    ensures forall m: nat | m < n && Inside(w, fs, m) != [] :: m in Filled(w, fs, n)
  {
    hide Inside;
    if n > 0 {
      FilledAre(w, fs, n - 1);
      FilledMore(Filled(w, fs, n - 1), n - 1, Inside(w, fs, n - 1) != []);
    }
  }

  lemma FilledMore(filled: seq<nat>, m: nat, more: bool)
    requires forall i | 0 <= i < |filled| :: filled[i] < m
    requires forall i, j | 0 <= i < j < |filled| :: filled[i] < filled[j]
    ensures var all := filled + (if more then [m] else []);
      && (forall i | 0 <= i < |all| :: all[i] <= m)
      && (forall i, j | 0 <= i < j < |all| :: all[i] < all[j])
      && (forall x | x in all :: x in filled || (more && x == m)) && (forall x | x in filled :: x in all)
      && (more ==> m in all)
  {
  }

  /** What a query streams into buckets is what the range is said to hold. */
  lemma GroupedDescribes(w: Window, fs: seq<Fact>, buckets: seq<Bucket>)
    requires WindowOk(w) && w.start <= w.end && Grouped(w, fs, Count(w), buckets)
    ensures Describes(w.latest, w.start, w.end, w.width, w.kind, fs, buckets)
  {
    hide Inside, Summarizes, Drawn, Sums, Count, Begin, Finish, Partial, BucketFor;
    var filled := Filled(w, fs, Count(w));
    CountCovers(w);
    FilledAre(w, fs, Count(w));
    forall i | 0 <= i < |buckets|
      ensures Drawn(w.latest, w.start, w.end, w.width, buckets[i]) && Sums(w.kind, fs, buckets[i])
    {
      assert BucketFor(w, fs, filled[i], buckets[i]);
      WindowDrawn(w, fs, filled[i], buckets[i]);
    }
    forall i, j | 0 <= i < j < |buckets| ensures buckets[i].endTs <= buckets[j].startTs {
      WindowsApart(w, fs, filled[i], filled[j], buckets[i], buckets[j]);
    }
    forall f | f in fs && w.start <= f.ts < w.end
      ensures exists i :: 0 <= i < |buckets| && Spans(buckets[i], f.ts)
    {
      var n := At(w, f.ts);
      WindowHolds(w, fs, f, n);
      var i :| 0 <= i < |filled| && filled[i] == n;
      BucketCovers(w, fs, f, n, buckets[i]);
    }
  }

  lemma WindowsApart(w: Window, fs: seq<Fact>, n: nat, m: nat, a: Bucket, b: Bucket)
    requires n < m && BucketFor(w, fs, n, a) && BucketFor(w, fs, m, b)
    ensures a.endTs <= b.startTs
  {
    hide Inside, Summarizes, Partial;
    NextBegins(w, n);
    MulUp(w.width, n + 1, m);
  }

  lemma MulUp(width: nat, a: nat, b: nat)
    requires a <= b
    ensures a * width <= b * width
  {
  }

  lemma WindowHolds(w: Window, fs: seq<Fact>, f: Fact, n: nat)
    requires w.width > 0 && f in fs && w.start <= f.ts < w.end && n == At(w, f.ts)
    ensures Inside(w, fs, n) != []
  {
    hide At, Begin, Finish, InRange;
    InOneWindow(w, f.ts, n);
    InRangeIs(fs, Begin(w, n), Finish(w, n));
    assert f in Inside(w, fs, n);
  }

  lemma BucketCovers(w: Window, fs: seq<Fact>, f: Fact, n: nat, b: Bucket)
    requires w.width > 0 && w.start <= f.ts < w.end && n == At(w, f.ts) && BucketFor(w, fs, n, b)
    ensures Spans(b, f.ts)
  {
    hide At, Begin, Finish, Inside, Summarizes;
    InOneWindow(w, f.ts, n);
  }

  lemma {:induction false} InRangeInner(fs: seq<Fact>, start: int, end: int, a: int, b: int)
    requires start <= a && b <= end
    ensures InRange(InRange(fs, start, end), a, b) == InRange(fs, a, b)
    decreases |fs|
  {
    if fs != [] {
      var n := |fs| - 1;
      InRangeInner(fs[..n], start, end, a, b);
      var inner := InRange(fs[..n], start, end);
      if start <= fs[n].ts < end {
        Sequences.Unsnoc(inner, fs[n]);
      } else {
        Sequences.Neutral(inner);
        Sequences.Neutral(InRange(fs[..n], a, b));
      }
    }
  }

  /** Facts outside the range make no difference. */
  lemma DescribesWider(latest: Option<I64>, start: int, end: int, width: nat, kind: ValueType, fs: seq<Fact>,
                       buckets: seq<Bucket>)
    requires width > 0 && Describes(latest, start, end, width, kind, InRange(fs, start, end), buckets)
    ensures Describes(latest, start, end, width, kind, fs, buckets)
  {
    hide InRange, Summarizes;
    InRangeIs(fs, start, end);
    forall i | 0 <= i < |buckets| ensures Sums(kind, fs, buckets[i]) {
      assert Drawn(latest, start, end, width, buckets[i]);
      InRangeInner(fs, start, end, buckets[i].startTs, buckets[i].endTs);
    }
  }

  // ------------------------------------------------------------ complete buckets

  lemma SameCell(start: int, width: nat, a: int, b: int, ts: int)
    requires width > 0 && start <= a <= ts < a + width && start <= b <= ts < b + width
    requires (a - start) % width == 0 && (b - start) % width == 0
    ensures a == b
  {
    var x, y := (a - start) / width, (b - start) / width;
    assert a - start == x * width && b - start == y * width;
    assert (x + 1) * width == x * width + width && (y + 1) * width == y * width + width;
    if x < y { MulUp(width, x + 1, y); }
    if y < x { MulUp(width, y + 1, x); }
  }

  lemma DrawnCell(latest: Option<I64>, start: int, end: int, width: nat, b: Bucket, ts: int)
    requires width > 0 && Drawn(latest, start, end, width, b) && Spans(b, ts)
    ensures b.startTs <= ts < b.startTs + width
  {
  }

  lemma HeadIn(fs: seq<Fact>)
    ensures fs == [] || fs[0] in fs
  {
  }

  lemma LaterOutside(fs: seq<Fact>, more: seq<Fact>, a: int, b: int)
    requires forall f | f in more :: b <= f.ts
    ensures InRange(fs + more, a, b) == InRange(fs, a, b)
  {
    InRangeConcat(fs, more, a, b);
    InRangeIs(more, a, b);
    hide InRange;
    var late := InRange(more, a, b);
    HeadIn(late);
    Sequences.Neutral(InRange(fs, a, b));
  }

  /** A bucket reported as complete is still there, unchanged, however many rows have arrived later. */
  lemma CompleteStays(l: I64, m: I64, start: int, end: int, width: nat, kind: ValueType, fs: seq<Fact>,
                      more: seq<Fact>, a: seq<Bucket>, b: seq<Bucket>, i: nat)
    requires width > 0 && l <= m && (forall f | f in more :: l < f.ts)
    requires Describes(Some(l), start, end, width, kind, fs, a)
    requires Describes(Some(m), start, end, width, kind, fs + more, b)
    requires i < |a| && !a[i].partial
    ensures a[i] in b
  {
    hide Summarizes, InRange;
    assert Drawn(Some(l), start, end, width, a[i]) && Sums(kind, fs, a[i]);
    SumsSamples(a[i], kind, InRange(fs, a[i].startTs, a[i].endTs));
    InRangeIs(fs, a[i].startTs, a[i].endTs);
    var f := InRange(fs, a[i].startTs, a[i].endTs)[0];
    assert f in InRange(fs, a[i].startTs, a[i].endTs) && f in fs + more;
    var j :| 0 <= j < |b| && Spans(b[j], f.ts);
    assert Drawn(Some(m), start, end, width, b[j]) && Sums(kind, fs + more, b[j]);
    DrawnCell(Some(l), start, end, width, a[i], f.ts);
    DrawnCell(Some(m), start, end, width, b[j], f.ts);
    SameCell(start, width, a[i].startTs, b[j].startTs, f.ts);
    LaterOutside(fs, more, a[i].startTs, a[i].endTs);
    SummaryIsUnique(a[i], b[j], kind, Values(InRange(fs, a[i].startTs, a[i].endTs)));
    assert b[j] in b;
  }
}
