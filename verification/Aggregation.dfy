/**
 Aggregation: the facts of a range, one after the other, become one bucket for each window
 that holds any. The result is what cutting the range into windows and summing up each one gives.
 */
module Aggregation {
  import opened Prelude
  import opened Cells
  import opened Catalog
  import opened Ranges
  import opened Buckets
  import Sequences

  datatype Window = Window(start: int, end: int, width: nat, kind: ValueType, latest: Option<I64>)

  predicate WindowOk(w: Window) {
    w.width > 0 && I64_MIN <= w.start <= I64_MAX && I64_MIN <= w.end <= I64_MAX
  }

  // Where window `n` begins, and where it ends within the range.
  function Begin(w: Window, n: nat): int { w.start + n * w.width }

  function Finish(w: Window, n: nat): int { if Begin(w, n) + w.width < w.end then Begin(w, n) + w.width else w.end }

  // A window is partial when the range cuts it, or when the table may still get rows in it.
  predicate Partial(w: Window, n: nat) {
    Begin(w, n) + w.width > w.end || (w.latest.Some? && w.latest.value < Finish(w, n))
  }

  function Values(fs: seq<Fact>): seq<Cell> { seq(|fs|, i requires 0 <= i < |fs| => fs[i].value) }

  // The facts of one window.
  function Inside(w: Window, fs: seq<Fact>, n: nat): seq<Fact> { InRange(fs, Begin(w, n), Finish(w, n)) }

  // The windows before `n` that hold a fact.
  function Filled(w: Window, fs: seq<Fact>, n: nat): seq<nat> {
    if n == 0 then [] else Filled(w, fs, n - 1) + (if Inside(w, fs, n - 1) == [] then [] else [n - 1])
  }

  predicate BucketFor(w: Window, fs: seq<Fact>, n: nat, b: Bucket) {
    && b.startTs == Begin(w, n) && b.endTs == Finish(w, n) && b.partial == Partial(w, n)
    && Summarizes(b, w.kind, Values(Inside(w, fs, n)))
  }

  /** One bucket for each window before `n` that holds a fact, in order, each exactly about its window. */
  predicate Grouped(w: Window, fs: seq<Fact>, n: nat, buckets: seq<Bucket>) {
    var filled := Filled(w, fs, n);
    |buckets| == |filled| && forall i | 0 <= i < |buckets| :: BucketFor(w, fs, filled[i], buckets[i])
  }

  /** There is no other such list. */
  lemma GroupedIsUnique(w: Window, fs: seq<Fact>, n: nat, a: seq<Bucket>, b: seq<Bucket>)
    requires Grouped(w, fs, n, a) && Grouped(w, fs, n, b)
    ensures a == b
  {
    hide Inside, Summarizes;
    forall i | 0 <= i < |a| ensures a[i] == b[i] {
      SummaryIsUnique(a[i], b[i], w.kind, Values(Inside(w, fs, Filled(w, fs, n)[i])));
    }
  }

  function Samples(buckets: seq<Bucket>): nat {
    if buckets == [] then 0 else Samples(buckets[..|buckets| - 1]) + Last(buckets).samples
  }

  // Where the first `n` windows end within the range.
  function Reached(w: Window, n: nat): int { if Begin(w, n) < w.end then Begin(w, n) else w.end }

  lemma {:induction false} RangesJoin(fs: seq<Fact>, a: int, b: int, c: int)
    requires a <= b <= c
    ensures |InRange(fs, a, c)| == |InRange(fs, a, b)| + |InRange(fs, b, c)|
    decreases |fs|
  {
    if fs != [] { RangesJoin(fs[..|fs| - 1], a, b, c); }
  }

  lemma {:induction false} SamplesReach(w: Window, fs: seq<Fact>, n: nat, buckets: seq<Bucket>)
    requires w.width > 0 && w.start <= w.end && Grouped(w, fs, n, buckets)
    ensures Samples(buckets) == |InRange(fs, w.start, Reached(w, n))|
    decreases n
  {
    hide InRange;
    if n == 0 {
      InRangeNone(fs, w.start, w.start);
    } else {
      var m := n - 1;
      BeginsRise(w, m, n);
      FitsBelow(w, m);
      NextBegins(w, m);
      if Inside(w, fs, m) == [] {
        SamplesReach(w, fs, m, buckets);
      } else {
        GroupedBefore(w, fs, m, buckets);
        SamplesReach(w, fs, m, buckets[..|buckets| - 1]);
      }
      if Begin(w, m) < w.end {
        RangesJoin(fs, w.start, Begin(w, m), Reached(w, n));
      } else {
        InRangeNone(fs, Begin(w, m), Finish(w, m));
      }
    }
  }

  lemma NextBegins(w: Window, m: nat)
    ensures Begin(w, m + 1) == Begin(w, m) + w.width
  {
  }

  lemma GroupedBefore(w: Window, fs: seq<Fact>, m: nat, buckets: seq<Bucket>)
    requires Grouped(w, fs, m + 1, buckets) && Inside(w, fs, m) != []
    ensures buckets != [] && Grouped(w, fs, m, buckets[..|buckets| - 1]) && Last(buckets).samples == |Inside(w, fs, m)|
  {
    hide Inside;
    assert Filled(w, fs, m + 1) == Filled(w, fs, m) + [m];
    assert BucketFor(w, fs, Filled(w, fs, m + 1)[|buckets| - 1], buckets[|buckets| - 1]);
  }

  /** The buckets of a range together count every fact in it once. */
  lemma SamplesAddUp(w: Window, fs: seq<Fact>, buckets: seq<Bucket>)
    requires WindowOk(w) && w.start <= w.end && Feed(w, fs) && Grouped(w, fs, Count(w), buckets)
    ensures Samples(buckets) == |fs|
  {
    hide Grouped, Begin, Count;
    CountCovers(w);
    SamplesReach(w, fs, Count(w), buckets);
    InRangeAll(fs, w.start, w.end);
  }

  // ------------------------------------------------------------------ windows

  // The window of a time.
  function At(w: Window, ts: int): nat
    requires w.width > 0 && w.start <= ts
  {
    (ts - w.start) / w.width
  }

  lemma AtIs(w: Window, ts: int)
    requires w.width > 0 && w.start <= ts
    ensures Begin(w, At(w, ts)) <= ts < Begin(w, At(w, ts)) + w.width
  {
    var d := ts - w.start;
    assert d == (d / w.width) * w.width + d % w.width;
  }

  lemma BeginsRise(w: Window, a: nat, b: nat)
    requires a < b
    ensures Begin(w, a) + w.width <= Begin(w, b)
  {
    assert Begin(w, b) - Begin(w, a) == (b - a) * w.width;
    assert (b - a) * w.width >= w.width by { Times(b - a, w.width); }
  }

  lemma Times(a: nat, width: nat)
    requires a > 0
    ensures a * width >= width
  {
  }

  /** A time of the range lies in exactly one window. */
  lemma InOneWindow(w: Window, ts: int, n: nat)
    requires w.width > 0 && w.start <= ts < w.end
    ensures Begin(w, n) <= ts < Finish(w, n) <==> n == At(w, ts)
  {
    AtIs(w, ts);
    if n < At(w, ts) { BeginsRise(w, n, At(w, ts)); }
    if At(w, ts) < n { BeginsRise(w, At(w, ts), n); }
  }

  // ------------------------------------------------------------- one more fact

  lemma InsideNext(w: Window, fs: seq<Fact>, f: Fact, n: nat)
    requires w.width > 0 && w.start <= f.ts < w.end
    ensures Inside(w, fs + [f], n) == if n == At(w, f.ts) then Inside(w, fs, n) + [f] else Inside(w, fs, n)
  {
    InOneWindow(w, f.ts, n);
    Sequences.Unsnoc(fs, f);
    Sequences.Neutral(Inside(w, fs, n));
  }

  lemma {:induction false} FilledSame(w: Window, fs: seq<Fact>, f: Fact, n: nat)
    requires w.width > 0 && w.start <= f.ts < w.end && n <= At(w, f.ts)
    ensures Filled(w, fs + [f], n) == Filled(w, fs, n)
    decreases n
  {
    if n > 0 {
      FilledSame(w, fs, f, n - 1);
      InsideNext(w, fs, f, n - 1);
    }
  }

  lemma {:induction false} FilledBelow(w: Window, fs: seq<Fact>, n: nat)
    ensures forall i | 0 <= i < |Filled(w, fs, n)| :: Filled(w, fs, n)[i] < n
    decreases n
  {
    if n > 0 { FilledBelow(w, fs, n - 1); }
  }

  /** What is grouped stays so when a fact of a later window comes. */
  lemma GroupedSame(w: Window, fs: seq<Fact>, f: Fact, n: nat, buckets: seq<Bucket>)
    requires w.width > 0 && w.start <= f.ts < w.end && n <= At(w, f.ts) && Grouped(w, fs, n, buckets)
    ensures Grouped(w, fs + [f], n, buckets)
  {
    hide Inside, Summarizes;
    FilledSame(w, fs, f, n);
    FilledBelow(w, fs, n);
    forall i | 0 <= i < |buckets| ensures BucketFor(w, fs + [f], Filled(w, fs, n)[i], buckets[i]) {
      InsideNext(w, fs, f, Filled(w, fs, n)[i]);
    }
  }

  // No window between the last fact and the end holds anything.
  lemma {:induction false} FilledNoMore(w: Window, fs: seq<Fact>, n: nat, m: nat)
    requires w.width > 0 && n <= m && forall f | f in fs :: w.start <= f.ts < w.end && At(w, f.ts) < n
    ensures Filled(w, fs, m) == Filled(w, fs, n)
    decreases m
  {
    if n < m {
      FilledNoMore(w, fs, n, m - 1);
      forall f | f in fs ensures f.ts < Begin(w, m - 1) || Finish(w, m - 1) <= f.ts { InOneWindow(w, f.ts, m - 1); }
      InRangeNone(fs, Begin(w, m - 1), Finish(w, m - 1));
      Sequences.Neutral(Filled(w, fs, n));
    }
  }

  lemma GroupedNoMore(w: Window, fs: seq<Fact>, n: nat, m: nat, buckets: seq<Bucket>)
    requires w.width > 0 && n <= m && forall f | f in fs :: w.start <= f.ts < w.end && At(w, f.ts) < n
    requires Grouped(w, fs, n, buckets)
    ensures Grouped(w, fs, m, buckets)
  {
    hide BucketFor;
    FilledNoMore(w, fs, n, m);
  }

  lemma GroupedNext(w: Window, fs: seq<Fact>, n: nat, buckets: seq<Bucket>, b: Bucket)
    requires Grouped(w, fs, n, buckets) && Inside(w, fs, n) != [] && BucketFor(w, fs, n, b)
    ensures Grouped(w, fs, n + 1, buckets + [b])
  {
    hide BucketFor, Inside;
    assert Filled(w, fs, n + 1) == Filled(w, fs, n) + [n];
  }

  // ------------------------------------------------------------------ streaming

  // The facts of a range, each in it and in order.
  predicate Feed(w: Window, fs: seq<Fact>) {
    Ascending(fs) && forall f | f in fs :: w.start <= f.ts < w.end
  }

  lemma AtRises(w: Window, a: int, b: int)
    requires w.width > 0 && w.start <= a <= b
    ensures At(w, a) <= At(w, b)
  {
    AtIs(w, a);
    AtIs(w, b);
    if At(w, b) < At(w, a) { BeginsRise(w, At(w, b), At(w, a)); }
  }

  // The windows of the facts so far end with that of the last one.
  lemma WindowsSoFar(w: Window, fs: seq<Fact>)
    requires WindowOk(w) && Feed(w, fs) && fs != []
    ensures forall f | f in fs :: At(w, f.ts) <= At(w, Last(fs).ts)
  {
    forall f | f in fs ensures At(w, f.ts) <= At(w, Last(fs).ts) {
      var i :| 0 <= i < |fs| && fs[i] == f;
      assert i < |fs| - 1 ==> fs[i].ts < fs[|fs| - 1].ts;
      AtRises(w, f.ts, Last(fs).ts);
    }
  }

  lemma FeedParts(w: Window, fs: seq<Fact>, f: Fact)
    requires WindowOk(w) && Feed(w, fs + [f])
    ensures Feed(w, fs) && w.start <= f.ts < w.end
    ensures fs != [] ==> At(w, Last(fs).ts) <= At(w, f.ts)
  {
    var all := fs + [f];
    assert all[|fs|] == f && f in all;
    forall g | g in fs ensures g in all { }
    assert forall i | 0 <= i < |fs| :: all[i] == fs[i];
    if fs != [] {
      assert all[|fs| - 1] == Last(fs) && Last(fs) in fs;
      AtRises(w, Last(fs).ts, f.ts);
    }
  }

  lemma {:induction false} InsideNone(w: Window, fs: seq<Fact>, n: nat)
    requires w.width > 0 && forall f | f in fs :: w.start <= f.ts < w.end && At(w, f.ts) != n
    ensures Inside(w, fs, n) == []
  {
    forall f | f in fs ensures f.ts < Begin(w, n) || Finish(w, n) <= f.ts { InOneWindow(w, f.ts, n); }
    InRangeNone(fs, Begin(w, n), Finish(w, n));
  }

  // A fact of a later window closes the open bucket.
  lemma Closes(w: Window, fs: seq<Fact>, f: Fact, n: nat, buckets: seq<Bucket>, b: Bucket)
    requires WindowOk(w) && Feed(w, fs) && Feed(w, fs + [f]) && fs != [] && n == At(w, Last(fs).ts)
    requires w.start <= f.ts < w.end && n != At(w, f.ts)
    requires Grouped(w, fs, n, buckets) && Inside(w, fs, n) != [] && BucketFor(w, fs, n, b)
    ensures Grouped(w, fs + [f], At(w, f.ts), buckets + [b]) && Inside(w, fs, At(w, f.ts)) == []
  {
    hide Grouped, BucketFor, Inside;
    FeedParts(w, fs, f);
    WindowsSoFar(w, fs);
    GroupedNext(w, fs, n, buckets, b);
    GroupedNoMore(w, fs, n + 1, At(w, f.ts), buckets + [b]);
    GroupedSame(w, fs, f, At(w, f.ts), buckets + [b]);
    InsideNone(w, fs, At(w, f.ts));
  }

  // The first fact of all.
  lemma Begins(w: Window, f: Fact)
    requires WindowOk(w) && w.start <= f.ts < w.end
    ensures Grouped(w, [f], At(w, f.ts), []) && Inside(w, [], At(w, f.ts)) == []
  {
    Sequences.Neutral([f]);
    NothingFilled(w, At(w, f.ts));
    GroupedSame(w, [], f, At(w, f.ts), []);
  }

  lemma {:induction false} NothingFilled(w: Window, n: nat)
    ensures Filled(w, [], n) == []
    decreases n
  {
    if n > 0 { NothingFilled(w, n - 1); }
  }

  lemma ValuesNext(w: Window, fs: seq<Fact>, f: Fact)
    requires WindowOk(w) && w.start <= f.ts < w.end
    ensures Values(Inside(w, fs + [f], At(w, f.ts))) == Values(Inside(w, fs, At(w, f.ts))) + [f.value]
    ensures Values(Inside(w, fs, At(w, f.ts))) == [] <==> Inside(w, fs, At(w, f.ts)) == []
  {
    hide Inside;
    InsideNext(w, fs, f, At(w, f.ts));
  }

  lemma {:induction false} InRangeShorter(fs: seq<Fact>, start: int, end: int)
    ensures |InRange(fs, start, end)| <= |fs|
    decreases |fs|
  {
    if fs != [] { InRangeShorter(fs[..|fs| - 1], start, end); }
  }

  /** The window of a fact: where it begins and ends within the range, and whether it is partial. */
  method Geometry(w: Window, ts: I64) returns (r: Result<(I64, I64, bool)>)
    requires WindowOk(w)
    ensures r.Ok? <==> w.start <= ts < w.end
    ensures r.Ok? ==> r.value == (Begin(w, At(w, ts)), Finish(w, At(w, ts)), Partial(w, At(w, ts)))
  {
    var relative := ts - w.start;
    if relative < 0 || ts >= w.end { return Err(Corruption); }
    AtIs(w, ts);
    var index := relative / w.width;
    var begin := w.start + index * w.width;
    var natural := begin + w.width;
    var visible := if natural < w.end then natural else w.end;
    var partial := natural > w.end || (w.latest.Some? && w.latest.value < visible);
    FitsBelow(w, index);
    return Ok((begin, visible, partial));
  }

  // A window begins no earlier than the range does.
  lemma FitsBelow(w: Window, n: nat)
    requires w.width > 0
    ensures w.start <= Begin(w, n)
  {
    if n > 0 { BeginsRise(w, 0, n); }
  }

  // How many windows a range has.
  function Count(w: Window): nat
    requires WindowOk(w) && w.start <= w.end
  {
    if w.start == w.end then 0 else (w.end - w.start + w.width - 1) / w.width
  }

  /** They cover the range, and the last of them reaches into it. */
  lemma CountCovers(w: Window)
    requires WindowOk(w) && w.start <= w.end
    ensures forall n: nat :: n < Count(w) <==> Begin(w, n) < w.end
    ensures forall ts: int | w.start <= ts < w.end :: At(w, ts) < Count(w)
  {
    var d := w.end - w.start + w.width - 1;
    if w.start < w.end {
      var c := Count(w);
      assert d == c * w.width + d % w.width;
      forall n: nat ensures n < c <==> Begin(w, n) < w.end {
        if n < c { BeginsRise(w, n, c); }
        if c < n { BeginsRise(w, c, n); }
      }
    } else {
      forall n: nat ensures w.start <= Begin(w, n) { FitsBelow(w, n); }
    }
    forall ts: int | w.start <= ts < w.end ensures At(w, ts) < Count(w) { AtIs(w, ts); }
  }

  /** The stream of one key. */
  class AggregateState {
    const w: Window
    var current: BucketBuilder?
    var buckets: seq<Bucket>
    // The facts observed so far.
    ghost var seen: seq<Fact>

    ghost predicate Valid()
      reads this, current
    {
      && WindowOk(w) && Feed(w, seen)
      && (current == null ==> seen == [] && buckets == [])
      && (current != null ==>
            && seen != [] && Open(current, At(w, Last(seen).ts)) && current.seen != []
            && Grouped(w, seen, At(w, Last(seen).ts), buckets))
    }

    // A bucket holds what was seen of one window.
    ghost predicate Open(b: BucketBuilder, n: nat)
      reads this, b
    {
      b.Valid() && Active(b, w, n) && b.seen == Values(Inside(w, seen, n))
    }

    constructor (w: Window)
      requires WindowOk(w)
      ensures Valid() && current == null && seen == [] && this.w == w
    {
      this.w, current, buckets, seen := w, null, [], [];
    }

    /** Adds the next fact: it goes on with the open bucket, or closes it and opens that of its window. */
    method Observe(fact: Fact) returns (r: Result<()>)
      requires Valid() && Feed(w, seen + [fact])
      modifies this, current
      ensures r.Ok? ==>
        Valid() && seen == old(seen) + [fact] && current != null && (current == old(current) || fresh(current))
      ensures r.Ok? <==> Matches(w.kind, fact.value)
    {
      hide Grouped, Inside, Values, Feed, BucketFor, At, Begin, Finish, Partial, Summarizes;
      FeedParts(w, seen, fact);
      var found := Geometry(w, fact.ts);
      if found.Err? { return Err(Corruption); }
      var geometry := found.value;
      ghost var n := At(w, fact.ts);
      if current != null && current.startTs != geometry.0 {
        Close(fact);
      } else if current == null {
        Begins(w, fact);
        Sequences.Neutral([fact]);
      } else {
        Continue(fact);
      }
      var bucket: BucketBuilder;
      if current == null {
        bucket := new BucketBuilder(geometry.0, geometry.1, w.kind, geometry.2);
        NoValues();
      } else {
        bucket := current;
      }
      SampleCount(bucket, n);
      FeedShort(w, seen + [fact]);
      ValuesNext(w, seen, fact);
      r := bucket.Observe(fact.value);
      if r.Err? { return; }
      current := bucket;
      seen := seen + [fact];
      return Ok(());
    }

    // Closes the open bucket, as a fact of a later window has come.
    method Close(ghost fact: Fact)
      requires Valid() && current != null && Feed(w, seen + [fact]) && w.start <= fact.ts < w.end
      requires current.startTs != Begin(w, At(w, fact.ts))
      modifies this
      ensures current == null && seen == old(seen)
      ensures Grouped(w, seen + [fact], At(w, fact.ts), buckets) && Inside(w, seen, At(w, fact.ts)) == []
    {
      hide Grouped, Inside, Values, Feed, At, Begin, Finish, Partial, Summarizes;
      LastInRange(w, seen);
      var completed := current.Finish();
      if completed.Ok? {
        NoValuesIn(w, seen, At(w, Last(seen).ts));
        Closes(w, seen, fact, At(w, Last(seen).ts), buckets, completed.value);
        buckets := buckets + [completed.value];
      }
      current := null;
    }

    // The open bucket is that of the fact.
    lemma Continue(fact: Fact)
      requires Valid() && current != null && Feed(w, seen + [fact]) && w.start <= fact.ts < w.end
      requires current.startTs == Begin(w, At(w, fact.ts))
      ensures Grouped(w, seen + [fact], At(w, fact.ts), buckets) && Open(current, At(w, fact.ts))
    {
      hide Grouped, Inside, Values, Feed, At, Begin, Finish, Partial;
      LastInRange(w, seen);
      OneBegin(w, At(w, Last(seen).ts), At(w, fact.ts));
      GroupedSame(w, seen, fact, At(w, fact.ts), buckets);
    }

    lemma NoValues()
      ensures Values([]) == []
    {
    }

    lemma SampleCount(b: BucketBuilder, n: nat)
      requires Open(b, n)
      ensures b.samples <= |seen|
    {
      InRangeShorter(seen, Begin(w, n), Finish(w, n));
    }

    /** All buckets, once the last fact has been observed. */
    method Buckets() returns (r: Result<seq<Bucket>>)
      requires Valid() && w.start <= w.end
      ensures r.Ok? && Grouped(w, seen, Count(w), r.value)
    {
      hide Grouped, Inside, Values, Feed, At, Begin, Finish, Partial, Summarizes, Count;
      CountCovers(w);
      if current == null {
        NothingFilled(w, Count(w));
        NothingGrouped(w, Count(w));
        return Ok(buckets);
      }
      LastInRange(w, seen);
      ghost var n := At(w, Last(seen).ts);
      var last := current.Finish();
      if last.Err? { return Err(Corruption); }
      NoValuesIn(w, seen, n);
      GroupedNext(w, seen, n, buckets, last.value);
      WindowsSoFar(w, seen);
      NothingAfter(w, seen, n + 1);
      GroupedNoMore(w, seen, n + 1, Count(w), buckets + [last.value]);
      return Ok(buckets + [last.value]);
    }
  }

  // A range of 64-bit times has too few of them to exhaust a counter.
  lemma FeedShort(w: Window, fs: seq<Fact>)
    requires Feed(w, fs) && fs != []
    ensures |fs| <= w.end - w.start
  {
    Later(w, fs, |fs| - 1);
  }

  lemma {:induction false} Later(w: Window, fs: seq<Fact>, i: nat)
    requires Feed(w, fs) && i < |fs|
    ensures w.start + i <= fs[i].ts < w.end
    decreases i
  {
    assert fs[i] in fs;
    if i > 0 { Later(w, fs, i - 1); }
  }

  lemma LastInRange(w: Window, fs: seq<Fact>)
    requires Feed(w, fs) && fs != []
    ensures w.start <= Last(fs).ts < w.end
  {
    assert Last(fs) in fs;
  }

  lemma NothingAfter(w: Window, fs: seq<Fact>, n: nat)
    requires WindowOk(w) && Feed(w, fs) && (forall f | f in fs && w.start <= f.ts :: At(w, f.ts) < n)
    ensures forall f | f in fs :: w.start <= f.ts < w.end && At(w, f.ts) < n
  {
  }

  lemma NothingGrouped(w: Window, n: nat)
    requires Filled(w, [], n) == []
    ensures Grouped(w, [], n, [])
  {
  }

  lemma OneBegin(w: Window, a: nat, b: nat)
    requires w.width > 0 && Begin(w, a) == Begin(w, b)
    ensures a == b
  {
    if a < b { BeginsRise(w, a, b); }
    if b < a { BeginsRise(w, b, a); }
  }

  lemma NoValuesIn(w: Window, fs: seq<Fact>, n: nat)
    ensures Values(Inside(w, fs, n)) == [] <==> Inside(w, fs, n) == []
  {
  }

  // A builder is about one window.
  ghost predicate Active(b: BucketBuilder, w: Window, n: nat) {
    b.startTs == Begin(w, n) && b.endTs == Finish(w, n) && b.kind == w.kind && b.partial == Partial(w, n)
  }
}
