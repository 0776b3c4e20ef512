/** Coverage of a trend, bucket by bucket (completeTrendCoverage, overview_aggregate.go) and day by day
(applyDailyCoverage, evidence.go).

Buckets are numbered: bucket k is [k * step, (k + 1) * step).  `sliver` is how far past a bucket's edge a
time must reach to count as being in the next bucket: the program's 0.000001 of a step. */
module TrendBuckets {
  import opened Samples
  import opened Coverage

  datatype Trend = Trend(timestamp: int, coverage: Verdict, totals: Totals)

  /** int64(t / step). */
  function BucketOf(t: int, step: nat): int
    requires step > 0
  {
    t / step
  }

  /** int64(t / step - 0.000001): conversion truncates towards zero. */
  function LastBucketOf(t: int, step: nat, sliver: nat): int
    requires step > 0
  {
    if t < sliver then 0 else (t - sliver) / step
  }

  /** A time on a bucket's edge or clear of the sliver after it. */
  predicate Clear(t: int, step: nat, sliver: nat)
    requires step > 0
  {
    t % step == 0 || t % step >= sliver
  }

  lemma BucketBounds(t: int, step: nat, k: int)
    requires step > 0
    ensures BucketOf(t, step) <= k <==> t < (k + 1) * step
    ensures k <= BucketOf(t, step) <==> k * step <= t
  {
    var q := t / step;
    assert q * step <= t < q * step + step;
    MulOrder(q, k, step);
    MulOrder(q, k + 1, step);
    MulOrder(q + 1, k, step);
    MulOrder(q + 1, k + 1, step);
    assert (q + 1) * step == q * step + step;
  }

  lemma MulOrder(x: int, y: int, step: nat)
    requires step > 0
    ensures x <= y <==> x * step <= y * step
  {
    if x <= y {
      assert (y - x) * step >= 0;
    } else {
      assert (x - y - 1) * step >= 0;
    }
  }

  lemma Division(x: int, step: nat, q: int)
    requires step > 0 && q * step <= x < (q + 1) * step
    ensures x / step == q
  {
    BucketBounds(x, step, q);
  }

  lemma MultipleHasNoRemainder(k: int, step: nat)
    requires step > 0
    ensures (k * step) / step == k && (k * step) % step == 0
  {
    assert (k + 1) * step == k * step + step;
    Division(k * step, step, k);
  }

  lemma LastBucketIs(t: int, step: nat, sliver: nat)
    requires 0 < sliver <= step && 0 < t && Clear(t, step, sliver)
    ensures LastBucketOf(t, step, sliver) == if t % step == 0 then t / step - 1 else t / step
  {
    var q, rem := t / step, t % step;
    assert t == q * step + rem;
    assert (q + 1) * step == q * step + step && (q - 1) * step == q * step - step;
    if rem == 0 {
      MulOrder(q, 0, step);
      Division(t - sliver, step, q - 1);
    } else {
      MulOrder(0, q + 1, step);
      assert q >= 0 && q * step >= 0;
      Division(t - sliver, step, q);
    }
  }

  /** A time clear of the sliver lies past the start of its last bucket, and of the earlier ones, only. */
  lemma LastBucketBounds(t: int, step: nat, sliver: nat, k: int)
    requires 0 < sliver <= step && 0 < t && Clear(t, step, sliver)
    ensures k <= LastBucketOf(t, step, sliver) <==> k * step < t
  {
    LastBucketIs(t, step, sliver);
    BucketBounds(t, step, k);
    MultipleHasNoRemainder(k, step);
    var q := t / step;
    assert t == q * step + t % step;
    MulOrder(q, k, step);
  }

  // ---------- the buckets of a range ----------

  function SliceFrom(k: int, from: int, step: nat): int
  {
    if k * step < from then from else k * step
  }

  function SliceTo(k: int, to: int, step: nat): int
  {
    if (k + 1) * step > to then to else (k + 1) * step
  }

  ghost predicate InSlice(t: int, k: int, from: int, to: int, step: nat)
  {
    SliceFrom(k, from, step) <= t < SliceTo(k, to, step)
  }

  /** A range whose end is clear of the sliver is tiled: each of its ticks lies in the slice of exactly one
      of its buckets, and no other tick does. */
  lemma BucketsTile(from: int, to: int, step: nat, sliver: nat, t: int)
    requires 0 < sliver <= step && 0 <= from <= t < to && Clear(to, step, sliver)
    ensures BucketOf(from, step) <= BucketOf(t, step) <= LastBucketOf(to, step, sliver)
    ensures forall s, k :: InSlice(s, k, from, to, step) <==> from <= s < to && k == BucketOf(s, step)
  {
    var q := BucketOf(t, step);
    BucketBounds(t, step, q);
    BucketBounds(from, step, q);
    LastBucketBounds(to, step, sliver, q);
    forall s, k
      ensures InSlice(s, k, from, to, step) <==> from <= s < to && k == BucketOf(s, step)
    {
      OneSlice(s, k, from, to, step);
    }
  }

  lemma OneSlice(t: int, k: int, from: int, to: int, step: nat)
    requires step > 0 && 0 <= from
    ensures InSlice(t, k, from, to, step) <==> from <= t < to && k == BucketOf(t, step)
  {
    BucketBounds(t, step, k);
  }

  /** Otherwise the last tick of the range is in no bucket. */
  lemma SliverIsDropped(to: int, step: nat, sliver: nat)
    requires 0 < sliver <= step <= to && !Clear(to, step, sliver)
    ensures BucketOf(to - 1, step) > LastBucketOf(to, step, sliver)
  {
    var q := to / step;
    BucketBounds(to - 1, step, q);
    BucketBounds(to - sliver, step, q - 1);
    assert (q - 1 + 1) * step == q * step;
  }

  /** So the buckets hold every tick of a range exactly if its end is clear of the sliver, or lies in the first bucket. */
  lemma RangeIsKept(from: int, to: int, step: nat, sliver: nat)
    requires 0 < sliver <= step && 0 <= from < to
    ensures (forall t :: from <= t < to ==> BucketOf(t, step) <= LastBucketOf(to, step, sliver)) <==> Clear(to, step, sliver) || to < step
  {
    hide Clear, BucketOf, LastBucketOf;
    forall t | from <= t < to && (Clear(to, step, sliver) || to < step)
      ensures BucketOf(t, step) <= LastBucketOf(to, step, sliver)
    {
      if to < step {
        FirstBucketOnly(t, to, step, sliver);
      } else {
        BucketsTile(from, to, step, sliver, t);
      }
    }
    if !Clear(to, step, sliver) && to >= step {
      SliverIsDropped(to, step, sliver);
      assert from <= to - 1 < to;
    }
  }

  lemma FirstBucketOnly(t: int, to: int, step: nat, sliver: nat)
    requires 0 < sliver <= step && 0 <= t < to < step
    ensures BucketOf(t, step) == LastBucketOf(to, step, sliver) == 0
  {
    Division(t, step, 0);
    if to >= sliver {
      Division(to - sliver, step, 0);
    }
  }

  /** A range of at most n steps meets at most n + 1 buckets: 1441 for a day of minutes. */
  lemma BucketCount(from: int, to: int, step: nat, sliver: nat, n: nat)
    requires 0 < sliver <= step && 0 <= from < to && to - from <= n * step
    ensures LastBucketOf(to, step, sliver) - BucketOf(from, step) + 1 <= n + 1
  {
    var first, last := BucketOf(from, step), LastBucketOf(to, step, sliver);
    BucketBounds(from, step, first);
    if to >= sliver {
      BucketBounds(to - sliver, step, last);
    }
    assert last * step <= to || last == 0;
    assert last == 0 ==> last * step == 0;
    assert (first + 1) * step > from;
    MulOrder(first + n + 1, last, step);
    assert (first + n + 1) * step == (first + 1) * step + n * step;
  }

  lemma DayOfMinutes(from: int, to: int, sliver: nat)
    requires 0 < sliver <= 60 * SECOND && 0 <= from < to && to - from <= 86400 * SECOND
    ensures LastBucketOf(to, 60 * SECOND, sliver) - BucketOf(from, 60 * SECOND) + 1 <= 1441
  {
    BucketCount(from, to, 60 * SECOND, sliver, 1440);
  }

  // ---------- the row index ----------

  type Index = map<int, seq<StoredSample>>

  function At(index: Index, k: int): seq<StoredSample>
  {
    if k in index then index[k] else []
  }

  /** The row is filed under bucket k. */
  predicate FiledUnder(row: StoredSample, k: int, step: nat, sliver: nat)
    requires step > 0
  {
    BucketOf(row.sample.started, step) <= k <= LastBucketOf(row.sample.ended, step, sliver)
  }

  ghost predicate Files(index: Index, rows: seq<StoredSample>, first: int, last: int, step: nat, sliver: nat)
    requires step > 0
  {
    forall k, r :: first <= k <= last ==> (r in At(index, k) <==> r in rows && FiledUnder(r, k, step, sliver))
  }

  /** File one row under each of its buckets inside the range. */
  method FileRow(index: Index, row: StoredSample, first: int, last: int, step: nat, sliver: nat) returns (r: Index)
    requires step > 0
    ensures forall k, x :: first <= k <= last ==> (x in At(r, k) <==> x in At(index, k) || (x == row && FiledUnder(row, k, step, sliver)))
  {
    r := index;
    var firstBucket, lastBucket := BucketOf(row.sample.started, step), LastBucketOf(row.sample.ended, step, sliver);
    var at := firstBucket;
    while at <= lastBucket
      invariant firstBucket <= at
      invariant forall k, x :: first <= k <= last ==> (x in At(r, k) <==> x in At(index, k) || (x == row && firstBucket <= k < at && k <= lastBucket))
    {
      if first <= at <= last {
        r := r[at := At(r, at) + [row]];
      }
      at := at + 1;
    }
  }

  method FileRows(rows: seq<StoredSample>, first: int, last: int, step: nat, sliver: nat) returns (index: Index)
    requires step > 0
    ensures Files(index, rows, first, last, step, sliver)
  {
    index := map[];
    for i := 0 to |rows|
      invariant Files(index, rows[..i], first, last, step, sliver)
    {
      assert rows[..i + 1] == rows[..i] + [rows[i]];
      index := FileRow(index, rows[i], first, last, step, sliver);
    }
    assert rows[..|rows|] == rows;
  }

  /** Rows as the store hands them out: forward in time, at non-negative times clear of the slivers. */
  ghost predicate Indexable(rows: seq<StoredSample>, step: nat, sliver: nat)
    requires step > 0
  {
    Forward(rows) && forall r :: r in rows ==> 0 <= r.sample.started && Clear(r.sample.ended, step, sliver)
  }

  lemma VerdictNeedsOnlyOverlaps(r: seq<StoredSample>, s: seq<StoredSample>, expected: set<string>, from: int, to: int, tol: nat)
    requires forall x :: Overlaps(x, from, to) ==> (x in r <==> x in s)
    ensures TrendVerdict(r, expected, from, to, tol) == TrendVerdict(s, expected, from, to, tol)
  {
    forall node
      ensures NodeProven(r, node, from, to, tol) <==> NodeProven(s, node, from, to, tol)
    {
      forall a, b | from <= a && b <= to
        ensures TickedWithin(r, node, a, b) <==> TickedWithin(s, node, a, b)
      {
        forall t | a <= t < b
          ensures Ticked(r, node, t) <==> Ticked(s, node, t)
        {
          assert forall x :: Covers(x, t) ==> Overlaps(x, from, to);
        }
      }
    }
  }

  /** The rows filed under a bucket. */
  ghost function Filed(rows: seq<StoredSample>, k: int, step: nat, sliver: nat): seq<StoredSample>
    requires step > 0
  {
    Keep(rows, (r: StoredSample) => FiledUnder(r, k, step, sliver))
  }

  lemma FiledRows(rows: seq<StoredSample>, k: int, step: nat, sliver: nat)
    requires step > 0
    ensures forall r :: r in Filed(rows, k, step, sliver) <==> r in rows && FiledUnder(r, k, step, sliver)
    ensures Forward(rows) ==> Forward(Filed(rows, k, step, sliver))
  {
  }

  /** The verdict of a bucket's entry in the index is that of the rows filed under it. */
  lemma IndexHolds(index: Index, rows: seq<StoredSample>, expected: set<string>, k: int, first: int, last: int,
                   from: int, to: int, step: nat, sliver: nat, tol: nat)
    requires step > 0 && first <= k <= last && Files(index, rows, first, last, step, sliver)
    ensures TrendVerdict(At(index, k), expected, from, to, tol) == TrendVerdict(Filed(rows, k, step, sliver), expected, from, to, tol)
  {
    hide TrendVerdict, FiledUnder;
    FiledRows(rows, k, step, sliver);
    VerdictNeedsOnlyOverlaps(At(index, k), Filed(rows, k, step, sliver), expected, from, to, tol);
  }

  /** With row ends clear of the slivers they decide the bucket's slice as all rows would. */
  lemma IndexAgrees(rows: seq<StoredSample>, expected: set<string>, k: int, from: int, to: int, step: nat, sliver: nat, tol: nat)
    requires 0 < sliver <= step && 0 <= k && Indexable(rows, step, sliver)
    ensures TrendVerdict(Filed(rows, k, step, sliver), expected, SliceFrom(k, from, step), SliceTo(k, to, step), tol)
         == TrendVerdict(rows, expected, SliceFrom(k, from, step), SliceTo(k, to, step), tol)
  {
    hide TrendVerdict;
    FiledRows(rows, k, step, sliver);
    forall r | Overlaps(r, SliceFrom(k, from, step), SliceTo(k, to, step))
      ensures r in Filed(rows, k, step, sliver) <==> r in rows
    {
      if r in rows {
        BucketBounds(r.sample.started, step, k);
        LastBucketBounds(r.sample.ended, step, sliver, k);
      }
    }
    VerdictNeedsOnlyOverlaps(Filed(rows, k, step, sliver), rows, expected, SliceFrom(k, from, step), SliceTo(k, to, step), tol);
  }

  /** The row reaches into the bucket's slice and is not filed under the bucket. */
  predicate Missed(row: StoredSample, k: int, from: int, to: int, step: nat, sliver: nat)
    requires step > 0
  {
    Overlaps(row, SliceFrom(k, from, step), SliceTo(k, to, step)) && !FiledUnder(row, k, step, sliver)
  }

  /** A missed row ends inside the sliver, and whatever is filed reaches past it. */
  lemma MissedEndsFirst(row: StoredSample, k: int, from: int, to: int, step: nat, sliver: nat)
    requires 0 < sliver <= step && Missed(row, k, from, to, step, sliver)
    ensures k * step < row.sample.ended < k * step + sliver
    ensures forall r :: FiledUnder(r, k, step, sliver) ==> k * step + sliver <= r.sample.ended
  {
    BucketBounds(row.sample.started, step, k);
    assert k > LastBucketOf(row.sample.ended, step, sliver) >= 0 by {
      if row.sample.ended >= sliver {
        BucketBounds(row.sample.ended - sliver, step, 0);
      }
    }
    MulOrder(1, k, step);
    if row.sample.ended >= sliver {
      BucketBounds(row.sample.ended - sliver, step, k);
    }
    forall r | FiledUnder(r, k, step, sliver)
      ensures k * step + sliver <= r.sample.ended
    {
      BucketBounds(r.sample.ended - sliver, step, k);
    }
  }

  /** The node's filed rows cover some of the first tol + 1 ticks of the slice. */
  ghost predicate LeadsIn(rows: seq<StoredSample>, node: string, start: int, end: int, tol: nat)
  {
    TickedWithin(rows, node, start, if start + tol + 1 < end then start + tol + 1 else end)
  }

  lemma ProvenLeadsIn(rows: seq<StoredSample>, node: string, start: int, end: int, tol: nat)
    requires Forward(rows) && start < end && NodeProven(rows, node, start, end, tol)
    ensures LeadsIn(rows, node, start, end, tol)
  {
    if end < start + tol + 1 {
      var r :| r in rows && r.node == node && Overlaps(r, start, end);
      var t := if r.sample.started > start then r.sample.started else start;
      assert Covers(r, t) && Ticked(rows, node, t);
    }
  }

  lemma LeadingInIsEnough(rows: seq<StoredSample>, filed: seq<StoredSample>, node: string, start: int, end: int, edge: int, tol: nat)
    requires start < end && NodeProven(rows, node, start, end, tol) && LeadsIn(filed, node, start, end, tol)
    requires forall r :: r in rows && r !in filed && Overlaps(r, start, end) ==> r.sample.ended <= edge
    requires forall r :: r in filed ==> edge <= r.sample.ended
    ensures NodeProven(filed, node, start, end, tol)
  {
    var f :| start <= f < (if start + tol + 1 < end then start + tol + 1 else end) && Ticked(filed, node, f);
    var q :| q in filed && q.node == node && Covers(q, f);
    assert Overlaps(q, start, end);
    forall a, b | start <= a && b <= end && b - a > tol
      ensures TickedWithin(filed, node, a, b)
    {
      assert TickedWithin(rows, node, a, b);
      var t :| a <= t < b && Ticked(rows, node, t);
      var r :| r in rows && r.node == node && Covers(r, t);
      if r in filed {
        assert Ticked(filed, node, t);
      } else if f >= a {
        assert Ticked(filed, node, f);
      } else {
        assert Overlaps(r, start, end) && Covers(q, a) && Ticked(filed, node, a);
      }
    }
  }

  lemma NodeAgrees(rows: seq<StoredSample>, node: string, k: int, from: int, to: int, step: nat, sliver: nat, tol: nat)
    requires 0 < sliver <= step && Forward(rows) && SliceFrom(k, from, step) < SliceTo(k, to, step)
    requires exists r :: r in rows && Missed(r, k, from, to, step, sliver)
    ensures var start, end, filed := SliceFrom(k, from, step), SliceTo(k, to, step), Filed(rows, k, step, sliver);
            NodeProven(filed, node, start, end, tol) <==> NodeProven(rows, node, start, end, tol) && LeadsIn(filed, node, start, end, tol)
  {
    hide NodeProven, LeadsIn, FiledUnder, Keep, SliceFrom, SliceTo;
    var start, end, filed := SliceFrom(k, from, step), SliceTo(k, to, step), Filed(rows, k, step, sliver);
    FiledRows(rows, k, step, sliver);
    var row :| row in rows && Missed(row, k, from, to, step, sliver);
    MissedEndsFirst(row, k, from, to, step, sliver);
    if NodeProven(filed, node, start, end, tol) {
      ProvenLeadsIn(filed, node, start, end, tol);
      MoreRowsProve(filed, rows, node, start, end, tol);
    }
    if NodeProven(rows, node, start, end, tol) && LeadsIn(filed, node, start, end, tol) {
      forall r | r in rows && r !in filed && Overlaps(r, start, end)
        ensures r.sample.ended <= k * step + sliver
      {
        assert Missed(r, k, from, to, step, sliver);
        MissedEndsFirst(r, k, from, to, step, sliver);
      }
      LeadingInIsEnough(rows, filed, node, start, end, k * step + sliver, tol);
    }
  }

  lemma MoreRowsProve(filed: seq<StoredSample>, rows: seq<StoredSample>, node: string, start: int, end: int, tol: nat)
    requires (forall r :: r in filed ==> r in rows) && NodeProven(filed, node, start, end, tol)
    ensures NodeProven(rows, node, start, end, tol)
  {
    forall a, b | start <= a && b <= end && b - a > tol
      ensures TickedWithin(rows, node, a, b)
    {
      assert TickedWithin(filed, node, a, b);
      var t :| a <= t < b && Ticked(filed, node, t);
      assert Ticked(rows, node, t);
    }
  }

  /** For any rows: the index disagrees with a look at all rows exactly when it misses a row and either has no other
      sample, or says full although a missed row is unusable, or does not say full although all rows do, since what is
      filed for some node begins more than a tolerance into the slice. */
  lemma IndexAgreesExactly(rows: seq<StoredSample>, expected: set<string>, k: int, from: int, to: int, step: nat, sliver: nat, tol: nat)
    requires 0 < sliver <= step && Forward(rows) && expected != {} && SliceFrom(k, from, step) < SliceTo(k, to, step)
    ensures var start, end, filed := SliceFrom(k, from, step), SliceTo(k, to, step), Filed(rows, k, step, sliver);
            TrendVerdict(filed, expected, start, end, tol) == TrendVerdict(rows, expected, start, end, tol) <==>
              || (forall r :: r in rows ==> !Missed(r, k, from, to, step, sliver))
              || (&& HasEvidence(filed, start, end)
                  && (TrendVerdict(filed, expected, start, end, tol) == Full ==>
                        forall r :: r in rows && Missed(r, k, from, to, step, sliver) ==> Usable(r, start, end))
                  && (TrendVerdict(rows, expected, start, end, tol) == Full ==>
                        forall node :: node in expected ==> LeadsIn(filed, node, start, end, tol)))
  {
    hide NodeProven, LeadsIn, FiledUnder, Keep, SliceFrom, SliceTo, Usable, Overlaps;
    var start, end, filed := SliceFrom(k, from, step), SliceTo(k, to, step), Filed(rows, k, step, sliver);
    FiledRows(rows, k, step, sliver);
    if row :| row in rows && Missed(row, k, from, to, step, sliver) {
      assert HasEvidence(rows, start, end);
      forall node
        ensures NodeProven(filed, node, start, end, tol) <==> NodeProven(rows, node, start, end, tol) && LeadsIn(filed, node, start, end, tol)
      {
        NodeAgrees(rows, node, k, from, to, step, sliver, tol);
      }
      assert AllUsable(rows, start, end) <==>
             AllUsable(filed, start, end) && forall r :: r in rows && Missed(r, k, from, to, step, sliver) ==> Usable(r, start, end);
    } else {
      VerdictNeedsOnlyOverlaps(filed, rows, expected, start, end, tol);
    }
  }

  /** So does one row that ends inside the sliver after a bucket's edge: the index finds nothing there, where a look at
      all rows finds a sample, and an unusable one if the row starts before the edge. */
  lemma IndexMissesSlivers(row: StoredSample, step: nat, sliver: nat, tol: nat)
    requires 0 < sliver <= step <= row.sample.ended && !Clear(row.sample.ended, step, sliver)
    requires row.sample.started < row.sample.ended
    ensures var k := BucketOf(row.sample.ended, step);
            && !FiledUnder(row, k, step, sliver)
            && TrendVerdict([row], {row.node}, k * step, (k + 1) * step, tol) != Missing
            && (row.sample.started < k * step ==> TrendVerdict([row], {row.node}, k * step, (k + 1) * step, tol) == Partial)
            && TrendVerdict([], {row.node}, k * step, (k + 1) * step, tol) == Missing
  {
    var t := row.sample.ended;
    var k := BucketOf(t, step);
    BucketBounds(t, step, k);
    BucketBounds(t - sliver, step, k - 1);
    assert (k - 1 + 1) * step == k * step && (k + 1) * step == k * step + step;
    assert t % step != 0 && t > k * step;
    assert row in [row] && Overlaps(row, k * step, (k + 1) * step);
  }

  // ---------- completeTrendCoverage ----------

  function NodesOf(rows: seq<StoredSample>): set<string>
  {
    set row | row in rows :: row.node
  }

  ghost predicate HasTrend(trends: seq<Trend>, timestamp: int)
  {
    exists t :: t in trends && t.timestamp == timestamp
  }

  /** What a completed trend says of bucket k, from the rows filed under it. */
  ghost function FiledVerdict(trends: seq<Trend>, rows: seq<StoredSample>, proof: bool, k: int, from: int, to: int, step: nat, sliver: nat, tol: nat): Verdict
    requires step > 0
  {
    if !HasTrend(trends, k * step) then Missing
    else if proof then TrendVerdict(Filed(rows, k, step, sliver), NodesOf(rows), SliceFrom(k, from, step), SliceTo(k, to, step), tol)
    else Partial
  }

  /** What it would say from a look at all rows. */
  ghost function BucketVerdict(trends: seq<Trend>, rows: seq<StoredSample>, proof: bool, k: int, from: int, to: int, step: nat, tol: nat): Verdict
  {
    if !HasTrend(trends, k * step) then Missing
    else if proof then TrendVerdict(rows, NodesOf(rows), SliceFrom(k, from, step), SliceTo(k, to, step), tol)
    else Partial
  }

  /** The trend runs over all buckets of the range without a gap. */
  ghost predicate Contiguous(result: seq<Trend>, first: int, step: nat)
  {
    forall i :: 0 <= i < |result| ==> result[i].timestamp == (first + i) * step
  }

  /** The totals of the last trend entry with this timestamp, and none without one. */
  ghost function TotalsFor(trends: seq<Trend>, timestamp: int): Totals
  {
    if trends == [] then ZERO_TOTALS
    else if trends[|trends| - 1].timestamp == timestamp then trends[|trends| - 1].totals
    else TotalsFor(trends[..|trends| - 1], timestamp)
  }

  lemma {:induction false} NoTrendNoTotals(trends: seq<Trend>, timestamp: int)
    requires !HasTrend(trends, timestamp)
    ensures TotalsFor(trends, timestamp) == ZERO_TOTALS
  {
    if trends != [] {
      NoTrendNoTotals(trends[..|trends| - 1], timestamp);
    }
  }

  /** Without an entry in the trend a bucket is missing, and with one it is partial if no proof is asked for. */
  ghost predicate Unproven(trend: Trend, trends: seq<Trend>, proof: bool)
  {
    && ((forall t :: t in trends ==> t.timestamp != trend.timestamp) ==> trend.coverage == Missing)
    && (!proof && (exists t :: t in trends && t.timestamp == trend.timestamp) ==> trend.coverage == Partial)
  }

  method ByTimestamp(trends: seq<Trend>) returns (m: map<int, Trend>)
    ensures forall t :: t in m <==> HasTrend(trends, t)
    ensures forall t :: t in m ==> m[t] in trends && m[t].timestamp == t && m[t].totals == TotalsFor(trends, t)
  {
    m := map[];
    for i := 0 to |trends|
      invariant forall t :: t in m <==> HasTrend(trends[..i], t)
      invariant forall t :: t in m ==> m[t] in trends && m[t].timestamp == t && m[t].totals == TotalsFor(trends[..i], t)
    {
      assert trends[..i + 1] == trends[..i] + [trends[i]];
      assert trends[i] in trends[..i + 1] && trends[..i + 1][..i] == trends[..i];
      ghost var before := m;
      m := m[trends[i].timestamp := trends[i]];
      forall t
        ensures t in m <==> HasTrend(trends[..i + 1], t)
      {
        if t in before {
          var x :| x in trends[..i] && x.timestamp == t;
          assert x in trends[..i + 1];
        }
      }
    }
    assert trends[..|trends|] == trends;
  }

  /** completeTrendCoverage: one entry per bucket of the range, judged from the rows filed under it, which is the
      verdict all rows would give if their ends are clear of the slivers. */
  method CompleteTrendCoverage(from: int, to: int, step: nat, sliver: nat, trends: seq<Trend>, rows: seq<StoredSample>, proof: bool, tol: nat)
    returns (result: seq<Trend>)
    requires 0 <= from && (step > 0 ==> 0 < sliver <= step)
    ensures to <= from || step == 0 ==> result == trends
    ensures to > from && step > 0 ==>
      && Contiguous(result, BucketOf(from, step), step)
      && BucketOf(from, step) + |result| == LastBucketOf(to, step, sliver) + 1
    ensures to > from && step > 0 ==> forall i :: 0 <= i < |result| ==> result[i].totals == TotalsFor(trends, result[i].timestamp)
    ensures to > from && step > 0 ==> forall i :: 0 <= i < |result| ==> Unproven(result[i], trends, proof)
    ensures to > from && step > 0 && Forward(rows) ==>
      forall i :: 0 <= i < |result| ==>
        result[i].coverage == FiledVerdict(trends, rows, proof, BucketOf(from, step) + i, from, to, step, sliver, tol)
    ensures to > from && step > 0 && Indexable(rows, step, sliver) ==>
      forall i :: 0 <= i < |result| ==>
        result[i].coverage == BucketVerdict(trends, rows, proof, BucketOf(from, step) + i, from, to, step, tol)
  {
    if to <= from || step == 0 {
      return trends;
    }
    result := CompleteBuckets(from, to, step, sliver, trends, rows, proof, tol);
    EntriesMean(result, trends, rows, proof, BucketOf(from, step), from, to, step, sliver, tol);
    hide *;
  }

  /** The maps, and the last loop. */
  method CompleteBuckets(from: int, to: int, step: nat, sliver: nat, trends: seq<Trend>, rows: seq<StoredSample>, proof: bool, tol: nat)
    returns (result: seq<Trend>)
    requires 0 <= from < to && 0 < sliver <= step
    ensures BucketOf(from, step) + |result| == LastBucketOf(to, step, sliver) + 1
    ensures forall i :: 0 <= i < |result| ==> Entry(result[i], trends, rows, proof, BucketOf(from, step) + i, from, to, step, sliver, tol)
  {
    hide *;
    var byTimestamp := ByTimestamp(trends);
    var first, last := BucketOf(from, step), LastBucketOf(to, step, sliver);
    RangeHasBuckets(from, to, step, sliver);
    var index := FileRows(rows, first, last, step, sliver);
    result := [];
    var k := first;
    while k <= last
      invariant first <= k == first + |result| <= last + 1
      invariant forall i :: 0 <= i < |result| ==> Entry(result[i], trends, rows, proof, first + i, from, to, step, sliver, tol)
    {
      var trend := CompleteBucket(byTimestamp, trends, index, rows, proof, k, first, last, from, to, step, sliver, tol);
      result, k := result + [trend], k + 1;
    }
  }

  lemma EntriesMean(result: seq<Trend>, trends: seq<Trend>, rows: seq<StoredSample>, proof: bool, first: int, from: int, to: int, step: nat,
                    sliver: nat, tol: nat)
    requires step > 0 && forall i :: 0 <= i < |result| ==> Entry(result[i], trends, rows, proof, first + i, from, to, step, sliver, tol)
    ensures Contiguous(result, first, step)
    ensures forall i :: 0 <= i < |result| ==> result[i].totals == TotalsFor(trends, result[i].timestamp)
    ensures forall i :: 0 <= i < |result| ==> Unproven(result[i], trends, proof)
    ensures Forward(rows) ==>
      forall i :: 0 <= i < |result| ==> result[i].coverage == FiledVerdict(trends, rows, proof, first + i, from, to, step, sliver, tol)
    ensures Indexable(rows, step, sliver) ==>
      forall i :: 0 <= i < |result| ==> result[i].coverage == BucketVerdict(trends, rows, proof, first + i, from, to, step, tol)
  {
    hide FiledVerdict, BucketVerdict, Indexable, Unproven, TotalsFor;
  }

  /** The entry of bucket k. */
  ghost predicate Entry(trend: Trend, trends: seq<Trend>, rows: seq<StoredSample>, proof: bool, k: int, from: int, to: int, step: nat, sliver: nat,
                        tol: nat)
    requires step > 0
  {
    && trend.timestamp == k * step && trend.totals == TotalsFor(trends, k * step) && Unproven(trend, trends, proof)
    && (Forward(rows) ==> trend.coverage == FiledVerdict(trends, rows, proof, k, from, to, step, sliver, tol))
    && (Indexable(rows, step, sliver) ==> trend.coverage == BucketVerdict(trends, rows, proof, k, from, to, step, tol))
  }

  lemma RangeHasBuckets(from: int, to: int, step: nat, sliver: nat)
    requires 0 < sliver <= step && 0 <= from < to
    ensures 0 <= BucketOf(from, step) <= LastBucketOf(to, step, sliver) + 1
  {
    var first := BucketOf(from, step);
    BucketBounds(from, step, first);
    BucketBounds(from, step, 0);
    assert (first - 1) * step == first * step - step;
    if to >= sliver {
      BucketBounds(to - sliver, step, first - 1);
    } else {
      BucketBounds(from, step, 1);
      assert 1 * step == step;
    }
  }

  /** One round of the last loop. */
  method CompleteBucket(byTimestamp: map<int, Trend>, ghost trends: seq<Trend>, index: Index, rows: seq<StoredSample>, proof: bool,
                        k: int, first: int, last: int, from: int, to: int, step: nat, sliver: nat, tol: nat) returns (trend: Trend)
    requires 0 < sliver <= step && 0 <= first <= k <= last
    requires forall t :: t in byTimestamp <==> HasTrend(trends, t)
    requires forall t :: t in byTimestamp ==> byTimestamp[t].timestamp == t && byTimestamp[t].totals == TotalsFor(trends, t)
    requires Files(index, rows, first, last, step, sliver)
    ensures Entry(trend, trends, rows, proof, k, from, to, step, sliver, tol)
  {
    hide TrendVerdict, Keep, FiledUnder, Clear, SliceFrom, SliceTo, TotalsFor;
    if k * step !in byTimestamp {
      NoTrendNoTotals(trends, k * step);
      return Trend(k * step, Missing, ZERO_TOTALS);
    }
    trend := byTimestamp[k * step];
    var verdict := Partial;
    if proof {
      verdict := TrendCoverage(At(index, k), NodesOf(rows), SliceFrom(k, from, step), SliceTo(k, to, step), tol);
      IndexHolds(index, rows, NodesOf(rows), k, first, last, SliceFrom(k, from, step), SliceTo(k, to, step), step, sliver, tol);
      if Indexable(rows, step, sliver) {
        IndexAgrees(rows, NodesOf(rows), k, from, to, step, sliver, tol);
      }
    }
    trend := trend.(coverage := verdict);
  }

  // ---------- applyDailyCoverage ----------

  datatype DayCoverage = Unknown | PartialDay | CoveredDay

  /** A day of the response; `bounds` are the local midnights around it, absent when the date does not parse. */
  datatype Day = Day(bounds: Option<(int, int)>, coverage: DayCoverage)

  function DayFrom(day: Day, from: int): int
    requires day.bounds.Some?
  {
    if from > day.bounds.value.0 then from else day.bounds.value.0
  }

  function DayTo(day: Day, to: int): int
    requires day.bounds.Some?
  {
    if to < day.bounds.value.1 then to else day.bounds.value.1
  }

  /** The part of a trend bucket that lies in the day. */
  predicate Meets(point: Trend, start: int, end: int, step: nat)
  {
    point.timestamp < end && start < point.timestamp + step && start < end
  }

  /** The walk of one day over the trend. */
  method WalkDay(trends: seq<Trend>, start: int, end: int, step: nat, tol: nat, ghost first: int) returns (seen: bool, covered: bool)
    requires start < end && step > 0
    ensures seen <==> exists p :: p in trends && Meets(p, start, end, step)
    ensures Contiguous(trends, first, step) && first * step <= start ==>
      (covered <==> (forall p :: p in trends && Meets(p, start, end, step) ==> p.coverage == Full) && end <= (first + |trends|) * step)
  {
    var cursor := start;
    covered, seen := true, false;
    for i := 0 to |trends|
      invariant seen <==> exists p :: p in trends[..i] && Meets(p, start, end, step)
      invariant start <= cursor
      invariant Contiguous(trends, first, step) && first * step <= start ==>
        && cursor == WalkCursor(first, i, start, end, step)
        && (covered <==> forall p :: p in trends[..i] && Meets(p, start, end, step) ==> p.coverage == Full)
    {
      assert trends[..i + 1] == trends[..i] + [trends[i]];
      var point := trends[i];
      var a := if point.timestamp > start then point.timestamp else start;
      var b := if point.timestamp + step < end then point.timestamp + step else end;
      WalkStep(first, i, start, end, step);
      if b > a {
        assert Meets(point, start, end, step);
        seen := true;
        if a > cursor + tol || point.coverage != Full {
          covered := false;
        }
        cursor := if b > cursor then b else cursor;
      }
    }
    assert trends[..|trends|] == trends;
    covered := covered && cursor >= end;
  }

  function WalkCursor(first: int, i: nat, start: int, end: int, step: nat): int
  {
    if (first + i) * step <= start then start else if (first + i) * step >= end then end else (first + i) * step
  }

  lemma WalkStep(first: int, i: nat, start: int, end: int, step: nat)
    ensures (first + i + 1) * step == (first + i) * step + step
  {
  }

  ghost predicate AllFull(trends: seq<Trend>, start: int, end: int, step: nat)
  {
    forall p :: p in trends && Meets(p, start, end, step) ==> p.coverage == Full
  }

  /** What a day is marked, when the trend is contiguous from bucket `first` on. */
  ghost function DayVerdict(day: Day, trends: seq<Trend>, from: int, to: int, step: nat, first: int): DayCoverage
  {
    if day.bounds.None? || DayTo(day, to) <= DayFrom(day, from) then Unknown
    else
      var start, end := DayFrom(day, from), DayTo(day, to);
      if !exists p :: p in trends && Meets(p, start, end, step) then Unknown
      else if AllFull(trends, start, end, step) && end <= (first + |trends|) * step then CoveredDay
      else PartialDay
  }

  /** What the mark on a day says: unknown without a trend entry that reaches into the day's part of the range, or
      without such a part; covered if each such entry is full and together they reach the end; partial otherwise. */
  ghost predicate Judged(day: Day, trends: seq<Trend>, from: int, to: int, step: nat, first: int)
  {
    match day.bounds
    case None => day.coverage == Unknown
    case Some((midnight, next)) =>
      var start, end := if from > midnight then from else midnight, if to < next then to else next;
      && (day.coverage == Unknown <==> end <= start || forall p :: p in trends ==> p.timestamp >= end || p.timestamp + step <= start)
      && (day.coverage == CoveredDay <==>
            && start < end && (exists p :: p in trends && p.timestamp < end && start < p.timestamp + step)
            && (forall p :: p in trends && p.timestamp < end && start < p.timestamp + step ==> p.coverage == Full)
            && end <= (first + |trends|) * step)
  }

  lemma VerdictMeans(day: Day, trends: seq<Trend>, from: int, to: int, step: nat, first: int)
    ensures Judged(day.(coverage := DayVerdict(day, trends, from, to, step, first)), trends, from, to, step, first)
  {
    if day.bounds.Some? {
      var start, end := DayFrom(day, from), DayTo(day, to);
      assert forall p :: Meets(p, start, end, step) <==> p.timestamp < end && start < p.timestamp + step && start < end;
    }
  }

  /** applyDailyCoverage, in place. */
  method ApplyDailyCoverage(days: array<Day>, trends: seq<Trend>, from: int, to: int, step: nat, tol: nat, ghost first: int)
    requires step > 0
    modifies days
    ensures forall i :: 0 <= i < days.Length ==> days[i].bounds == old(days[i].bounds)
    ensures Contiguous(trends, first, step) && first * step <= from ==>
      forall i :: 0 <= i < days.Length ==> days[i].coverage == DayVerdict(old(days[i]), trends, from, to, step, first)
    ensures Contiguous(trends, first, step) && first * step <= from ==>
      forall i :: 0 <= i < days.Length ==> Judged(days[i], trends, from, to, step, first)
  {
    hide DayVerdict, Judged, Contiguous;
    for i := 0 to days.Length
      invariant forall k :: i <= k < days.Length ==> days[k] == old(days[k])
      invariant forall k :: 0 <= k < i ==> Marked(old(days[k]), days[k], trends, from, to, step, first)
    {
      days[i] := MarkDay(days[i], trends, from, to, step, tol, first);
    }
  }

  /** Only the mark of the day changes, and it is right for buckets without a gap. */
  ghost predicate Marked(before: Day, after: Day, trends: seq<Trend>, from: int, to: int, step: nat, first: int)
  {
    && after.bounds == before.bounds
    && (Contiguous(trends, first, step) && first * step <= from ==>
          after.coverage == DayVerdict(before, trends, from, to, step, first) && Judged(after, trends, from, to, step, first))
  }

  method MarkDay(day: Day, trends: seq<Trend>, from: int, to: int, step: nat, tol: nat, ghost first: int) returns (marked: Day)
    requires step > 0
    ensures Marked(day, marked, trends, from, to, step, first)
  {
    hide DayVerdict, Judged, Contiguous;
    var coverage := JudgeDay(day, trends, from, to, step, tol, first);
    VerdictMeans(day, trends, from, to, step, first);
    marked := day.(coverage := coverage);
  }

  method JudgeDay(day: Day, trends: seq<Trend>, from: int, to: int, step: nat, tol: nat, ghost first: int) returns (coverage: DayCoverage)
    requires step > 0
    ensures Contiguous(trends, first, step) && first * step <= from ==> coverage == DayVerdict(day, trends, from, to, step, first)
  {
    coverage := Unknown;
    if day.bounds.None? {
      return;
    }
    var start, end := DayFrom(day, from), DayTo(day, to);
    if end <= start {
      return;
    }
    var seen, covered := WalkDay(trends, start, end, step, tol, first);
    if seen {
      coverage := PartialDay;
      if covered {
        coverage := CoveredDay;
      }
    }
  }

  // ---------- what a covered day means ----------

  /** The trend is what CompleteTrendCoverage returns with proof for these rows. */
  ghost predicate Completed(result: seq<Trend>, trends: seq<Trend>, rows: seq<StoredSample>, from: int, to: int, step: nat, sliver: nat, tol: nat)
    requires step > 0
  {
    var first := BucketOf(from, step);
    && Contiguous(result, first, step)
    && forall i :: 0 <= i < |result| ==> result[i].coverage == FiledVerdict(trends, rows, true, first + i, from, to, step, sliver, tol)
  }

  lemma Widen(rows: seq<StoredSample>, node: string, a: int, b: int, a': int, b': int)
    requires a' <= a && b <= b' && TickedWithin(rows, node, a, b)
    ensures TickedWithin(rows, node, a', b')
  {
    var t :| a <= t < b && Ticked(rows, node, t);
  }

  /** A bucket that holds a tick of a covered day proves its slice for every node. */
  lemma BucketOfCoveredDay(result: seq<Trend>, trends: seq<Trend>, rows: seq<StoredSample>, node: string,
                           start: int, end: int, from: int, to: int, step: nat, sliver: nat, tol: nat, t: int)
    requires step > 0 && Completed(result, trends, rows, from, to, step, sliver, tol)
    requires from <= start <= t < end <= to && AllFull(result, start, end, step) && end <= (BucketOf(from, step) + |result|) * step
    requires node in NodesOf(rows)
    ensures var k := BucketOf(t, step);
            && SliceFrom(k, from, step) <= t < SliceTo(k, to, step)
            && NodeProven(rows, node, SliceFrom(k, from, step), SliceTo(k, to, step), tol)
  {
    hide NodeProven, Keep, FiledUnder;
    var first, k := BucketOf(from, step), BucketOf(t, step);
    BucketBounds(t, step, k);
    BucketBounds(t, step, first + |result| - 1);
    BucketBounds(from, step, k);
    assert (first + |result| - 1 + 1) * step == (first + |result|) * step;
    assert (k + 1) * step == k * step + step;
    var p := result[k - first];
    assert p in result && p.timestamp == (first + (k - first)) * step == k * step;
    assert Meets(p, start, end, step);
    assert p.coverage == FiledVerdict(trends, rows, true, first + (k - first), from, to, step, sliver, tol);
    FiledRows(rows, k, step, sliver);
    MoreRowsProve(Filed(rows, k, step, sliver), rows, node, SliceFrom(k, from, step), SliceTo(k, to, step), tol);
  }

  /** On a day marked covered, every node with rows is covered over the whole of the day's slice of the
      range: no stretch longer than twice the tolerance, one tolerance on each side of a bucket's edge. */
  lemma CoveredDayIsProven(result: seq<Trend>, trends: seq<Trend>, rows: seq<StoredSample>, node: string,
                           start: int, end: int, from: int, to: int, step: nat, sliver: nat, tol: nat)
    requires step > 0 && Forward(rows) && Completed(result, trends, rows, from, to, step, sliver, tol)
    requires from <= start < end <= to && AllFull(result, start, end, step) && end <= (BucketOf(from, step) + |result|) * step
    requires node in NodesOf(rows)
    ensures NodeCovered(rows, node, start, end, 2 * tol)
  {
    forall a, b | start <= a && b <= end && b - a > 2 * tol
      ensures TickedWithin(rows, node, a, b)
    {
      hide Completed, AllFull;
      BucketOfCoveredDay(result, trends, rows, node, start, end, from, to, step, sliver, tol, a);
      var e := SliceTo(BucketOf(a, step), to, step);
      var stop := if b < e then b else e;
      if stop - a > tol {
        Widen(rows, node, a, stop, a, b);
      } else {
        BucketOfCoveredDay(result, trends, rows, node, start, end, from, to, step, sliver, tol, e);
        var k := BucketOf(e, step);
        MultipleHasNoRemainder(BucketOf(a, step) + 1, step);
        var e2 := SliceTo(k, to, step);
        if b <= e2 {
          Widen(rows, node, e, b, a, b);
        } else {
          var r :| r in rows && r.node == node && Overlaps(r, e, e2);
          assert Covers(r, r.sample.started) || Covers(r, e);
          assert Ticked(rows, node, if r.sample.started > e then r.sample.started else e);
        }
      }
    }
  }

  // ---------- one tolerance ----------

  /** How far the node's rows that start before the edge cover the time before it. */
  function CoverUntil(rows: seq<StoredSample>, node: string, start: int, edge: int): int
  {
    if rows == [] then start
    else
      var r, before := rows[|rows| - 1], CoverUntil(rows[..|rows| - 1], node, start, edge);
      var until := if r.sample.ended < edge then r.sample.ended else edge;
      if r.node == node && r.sample.started < edge && until > before then until else before
  }

  /** From where the node's rows that end after the edge cover the time after it. */
  function CoverFrom(rows: seq<StoredSample>, node: string, edge: int, end: int): int
  {
    if rows == [] then end
    else
      var r, before := rows[|rows| - 1], CoverFrom(rows[..|rows| - 1], node, edge, end);
      var since := if r.sample.started > edge then r.sample.started else edge;
      if r.node == node && r.sample.ended > edge && since < before then since else before
  }

  /** That is the tick after the last one covered before the edge. */
  lemma {:induction false} CoverUntilIsLast(rows: seq<StoredSample>, node: string, start: int, edge: int)
    requires Forward(rows) && start <= edge
    ensures start <= CoverUntil(rows, node, start, edge) <= edge
    ensures CoverUntil(rows, node, start, edge) > start ==> Ticked(rows, node, CoverUntil(rows, node, start, edge) - 1)
    ensures forall t :: CoverUntil(rows, node, start, edge) <= t < edge ==> !Ticked(rows, node, t)
  {
    if rows != [] {
      var front, r := rows[..|rows| - 1], rows[|rows| - 1];
      assert rows == front + [r];
      CoverUntilIsLast(front, node, start, edge);
      forall t
        ensures Ticked(rows, node, t) <==> Ticked(front, node, t) || (r.node == node && Covers(r, t))
      {
        TickedMore(front, r, node, t);
      }
    }
  }

  /** And that is the first one covered from the edge on. */
  lemma {:induction false} CoverFromIsFirst(rows: seq<StoredSample>, node: string, edge: int, end: int)
    requires Forward(rows) && edge <= end
    ensures edge <= CoverFrom(rows, node, edge, end) <= end
    ensures CoverFrom(rows, node, edge, end) < end ==> Ticked(rows, node, CoverFrom(rows, node, edge, end))
    ensures forall t :: edge <= t < CoverFrom(rows, node, edge, end) ==> !Ticked(rows, node, t)
  {
    if rows != [] {
      var front, r := rows[..|rows| - 1], rows[|rows| - 1];
      assert rows == front + [r];
      CoverFromIsFirst(front, node, edge, end);
      forall t
        ensures Ticked(rows, node, t) <==> Ticked(front, node, t) || (r.node == node && Covers(r, t))
      {
        TickedMore(front, r, node, t);
      }
    }
  }

  lemma TickedMore(rows: seq<StoredSample>, row: StoredSample, node: string, t: int)
    ensures Ticked(rows + [row], node, t) <==> Ticked(rows, node, t) || (row.node == node && Covers(row, t))
  {
    var all := rows + [row];
    assert row in all && forall r :: r in rows ==> r in all;
  }

  /** The stretch without a covered tick around the edge is not longer than the tolerance. */
  predicate EdgeClosed(rows: seq<StoredSample>, node: string, start: int, end: int, edge: int, tol: nat)
  {
    CoverFrom(rows, node, edge, end) - CoverUntil(rows, node, start, edge) <= tol
  }

  ghost predicate EdgesClosed(rows: seq<StoredSample>, node: string, start: int, end: int, step: nat, tol: nat)
  {
    forall k: int :: start < k * step < end ==> EdgeClosed(rows, node, start, end, k * step, tol)
  }

  lemma OpenEdge(rows: seq<StoredSample>, node: string, start: int, end: int, edge: int, tol: nat)
    requires Forward(rows) && start <= edge <= end && NodeCovered(rows, node, start, end, tol)
    ensures EdgeClosed(rows, node, start, end, edge, tol)
  {
    hide CoverUntil, CoverFrom;
    CoverUntilIsLast(rows, node, start, edge);
    CoverFromIsFirst(rows, node, edge, end);
    var a, b := CoverUntil(rows, node, start, edge), CoverFrom(rows, node, edge, end);
    assert b - a > tol ==> TickedWithin(rows, node, a, b);
  }

  lemma AcrossClosedEdge(rows: seq<StoredSample>, node: string, start: int, end: int, edge: int, tol: nat, a: int, b: int)
    requires Forward(rows) && EdgeClosed(rows, node, start, end, edge, tol) && start <= a < edge < b <= end && b - a > tol
    ensures TickedWithin(rows, node, a, b)
  {
    hide CoverUntil, CoverFrom;
    CoverUntilIsLast(rows, node, start, edge);
    CoverFromIsFirst(rows, node, edge, end);
    var until, since := CoverUntil(rows, node, start, edge), CoverFrom(rows, node, edge, end);
    if until > a {
      assert Ticked(rows, node, until - 1);
    } else {
      assert Ticked(rows, node, since);
    }
  }

  /** One tolerance holds on a covered day exactly if it holds across each bucket's edge inside the day. */
  lemma OneToleranceExactly(result: seq<Trend>, trends: seq<Trend>, rows: seq<StoredSample>, node: string,
                            start: int, end: int, from: int, to: int, step: nat, sliver: nat, tol: nat)
    requires step > 0 && Forward(rows) && Completed(result, trends, rows, from, to, step, sliver, tol)
    requires from <= start < end <= to && AllFull(result, start, end, step) && end <= (BucketOf(from, step) + |result|) * step
    requires node in NodesOf(rows)
    ensures NodeCovered(rows, node, start, end, tol) <==> EdgesClosed(rows, node, start, end, step, tol)
  {
    hide EdgeClosed, Completed, AllFull, TickedWithin;
    if NodeCovered(rows, node, start, end, tol) {
      forall k: int | start < k * step < end
        ensures EdgeClosed(rows, node, start, end, k * step, tol)
      {
        OpenEdge(rows, node, start, end, k * step, tol);
      }
    }
    if EdgesClosed(rows, node, start, end, step, tol) {
      forall a, b | start <= a && b <= end && b - a > tol
        ensures TickedWithin(rows, node, a, b)
      {
        BucketOfCoveredDay(result, trends, rows, node, start, end, from, to, step, sliver, tol, a);
        var k := BucketOf(a, step) + 1;
        if b > k * step {
          assert start < k * step < end;
          AcrossClosedEdge(rows, node, start, end, k * step, tol, a, b);
        }
      }
    }
  }

  /** From the completed trend to the mark on the day: what a covered day says of the samples. */
  lemma CoveredDayMeans(day: Day, result: seq<Trend>, trends: seq<Trend>, rows: seq<StoredSample>, node: string,
                        from: int, to: int, step: nat, sliver: nat, tol: nat)
    requires step > 0 && Forward(rows) && Completed(result, trends, rows, from, to, step, sliver, tol)
    requires DayVerdict(day, result, from, to, step, BucketOf(from, step)) == CoveredDay
    requires node in NodesOf(rows)
    ensures NodeCovered(rows, node, DayFrom(day, from), DayTo(day, to), 2 * tol)
    ensures NodeCovered(rows, node, DayFrom(day, from), DayTo(day, to), tol) <==>
            EdgesClosed(rows, node, DayFrom(day, from), DayTo(day, to), step, tol)
  {
    CoveredDayIsProven(result, trends, rows, node, DayFrom(day, from), DayTo(day, to), from, to, step, sliver, tol);
    OneToleranceExactly(result, trends, rows, node, DayFrom(day, from), DayTo(day, to), from, to, step, sliver, tol);
  }

  /** The factor two is needed: with one tick short on either side of a bucket's edge both buckets are full,
      and the day has a gap of two. */
  lemma TwiceTheTolerance(left: StoredSample, right: StoredSample)
    requires left.node == right.node && Usable(left, 0, 10) && Usable(right, 10, 20)
    requires left.sample.started == 0 && left.sample.ended == 9 && right.sample.started == 11 && right.sample.ended == 20
    ensures var rows := [left, right];
            && TrendVerdict(rows, NodesOf(rows), 0, 10, 1) == Full && TrendVerdict(rows, NodesOf(rows), 10, 20, 1) == Full
            && !NodeCovered(rows, left.node, 0, 20, 1)
  {
    var rows, node := [left, right], left.node;
    assert left in rows && right in rows && NodesOf(rows) == {node};
    assert Overlaps(left, 0, 10) && Overlaps(right, 10, 20);
    forall t | 0 <= t < 9 || 11 <= t < 20
      ensures Ticked(rows, node, t)
    {
      assert Covers(if t < 9 then left else right, t);
    }
    forall a, b | 0 <= a && b <= 10 && b - a > 1
      ensures TickedWithin(rows, node, a, b)
    {
      assert Ticked(rows, node, a);
    }
    forall a, b | 10 <= a && b <= 20 && b - a > 1
      ensures TickedWithin(rows, node, a, b)
    {
      assert Ticked(rows, node, b - 1);
    }
    assert !TickedWithin(rows, node, 9, 11);
  }
}
