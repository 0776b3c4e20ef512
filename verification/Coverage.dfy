/** Interval proofs over usage samples: backend/database/aimonitor coverage.go, overview.go (liveWindow)
and overview_aggregate.go (trendCoverage).

A tick is covered when some sample's interval [started, ended) contains it.  The programs sort and sweep;
their answers are stated here tick by tick.  `tol` is the tolerance the sweeps allow, 0.001 seconds. */
module Coverage {
  import opened Samples

  datatype Option<T> = None | Some(value: T)

  // ---------- the pointwise meaning ----------

  ghost predicate Covers(row: StoredSample, t: int)
  {
    row.sample.started <= t < row.sample.ended
  }

  ghost predicate Uncovered(rows: seq<StoredSample>, a: int, b: int)
  {
    forall r, t :: r in rows && a <= t < b ==> !Covers(r, t)
  }

  /** No stretch of [from, to) longer than `tol` is without any covered tick. */
  ghost predicate NoLongGap(rows: seq<StoredSample>, from: int, to: int, tol: nat)
  {
    forall a, b :: from <= a < b <= to && Uncovered(rows, a, b) ==> b - a <= tol
  }

  predicate Overlaps(row: StoredSample, from: int, to: int)
  {
    row.sample.ended > from && row.sample.started < to
  }

  /** The row lies inside the window and its counters are proven for all of its interval. */
  predicate Usable(row: StoredSample, from: int, to: int)
  {
    from <= row.sample.started && row.sample.ended <= to && row.sample.coverage == Proven && row.sample.resets <= 0
  }

  ghost predicate Forward(rows: seq<StoredSample>)
  {
    forall r :: r in rows ==> r.sample.started < r.sample.ended
  }

  ghost predicate Inside(rows: seq<StoredSample>, from: int, to: int)
  {
    forall r :: r in rows ==> from <= r.sample.started && r.sample.ended <= to
  }

  lemma SameRowsSameGaps(r: seq<StoredSample>, s: seq<StoredSample>, from: int, to: int, tol: nat)
    requires forall x :: x in r <==> x in s
    ensures NoLongGap(r, from, to, tol) <==> NoLongGap(s, from, to, tol)
  {
    forall a, b
      ensures Uncovered(r, a, b) <==> Uncovered(s, a, b)
    {
    }
  }

  // ---------- one node's sweep ----------

  /** The cursor has passed over no long gap, and the tick before it is covered. */
  ghost predicate SweptTo(rows: seq<StoredSample>, from: int, covered: int, tol: nat)
  {
    && from <= covered
    && NoLongGap(rows, from, covered, tol)
    && (forall r :: r in rows ==> r.sample.ended <= covered)
    && (covered > from ==> exists r :: r in rows && Covers(r, covered - 1))
  }

  lemma Advance(rows: seq<StoredSample>, row: StoredSample, from: int, covered: int, tol: nat)
    requires SweptTo(rows, from, covered, tol)
    requires row.sample.started < row.sample.ended && row.sample.started <= covered + tol
    ensures SweptTo(rows + [row], from, if row.sample.ended > covered then row.sample.ended else covered, tol)
  {
    var next := if row.sample.ended > covered then row.sample.ended else covered;
    var all := rows + [row];
    assert row in all && forall r :: r in rows ==> r in all;
    if covered > from {
      var r :| r in rows && Covers(r, covered - 1);
      assert forall a, b :: Uncovered(rows, a, b) ==> !(a <= covered - 1 < b);
    }
    forall a, b | from <= a < b <= next && Uncovered(all, a, b)
      ensures b - a <= tol
    {
      assert Uncovered(rows, a, b);
      if b > covered {
        if b > row.sample.started {
          var t := if a >= row.sample.started then a else row.sample.started;
          assert Covers(row, t);
        }
      }
    }
    assert row.sample.ended > covered ==> Covers(row, next - 1);
  }

  /** The inner loop of every coverage check: walk the sorted samples with a cursor. */
  method Sweep(samples: seq<StoredSample>, from: int, to: int, tol: nat) returns (ok: bool)
    requires Sorted(samples)
    ensures Forward(samples) && Inside(samples, from, to) && from <= to ==> ok == NoLongGap(samples, from, to, tol)
  {
    var covered := from;
    for i := 0 to |samples|
      invariant Forward(samples) && Inside(samples, from, to) && from <= to ==> SweptTo(samples[..i], from, covered, tol) && covered <= to
    {
      var row := samples[i].sample;
      if row.started > covered + tol {
        if Forward(samples) && Inside(samples, from, to) && from <= to {
          GapBefore(samples, i, from, covered, tol);
          assert !(row.started - covered <= tol);
        }
        return false;
      }
      if Forward(samples) && Inside(samples, from, to) && from <= to {
        Advance(samples[..i], samples[i], from, covered, tol);
        assert samples[..i + 1] == samples[..i] + [samples[i]];
      }
      if row.ended > covered {
        covered := row.ended;
      }
    }
    assert samples[..|samples|] == samples;
    ok := covered >= to - tol;
    if Forward(samples) && Inside(samples, from, to) && from <= to {
      Finish(samples, from, to, covered, tol);
    }
  }

  lemma GapBefore(samples: seq<StoredSample>, i: nat, from: int, covered: int, tol: nat)
    requires i < |samples| && Sorted(samples) && SweptTo(samples[..i], from, covered, tol)
    ensures Uncovered(samples, covered, samples[i].sample.started)
  {
    forall r, t | r in samples && covered <= t < samples[i].sample.started
      ensures !Covers(r, t)
    {
      var k :| 0 <= k < |samples| && samples[k] == r;
      if k < i {
        assert r in samples[..i];
      } else if k > i {
        assert StartsBefore(samples[i], samples[k]);
      }
    }
  }

  lemma Finish(samples: seq<StoredSample>, from: int, to: int, covered: int, tol: nat)
    requires SweptTo(samples, from, covered, tol) && covered <= to
    ensures covered >= to - tol <==> NoLongGap(samples, from, to, tol)
  {
    if covered < to - tol {
      assert Uncovered(samples, covered, to);
    } else if covered > from {
      var r :| r in samples && Covers(r, covered - 1);
      assert forall a, b :: Uncovered(samples, a, b) ==> !(a <= covered - 1 < b);
    }
  }

  // ---------- several nodes ----------

  ghost predicate Ticked(rows: seq<StoredSample>, node: string, t: int)
  {
    exists r :: r in rows && r.node == node && Covers(r, t)
  }

  ghost predicate TickedWithin(rows: seq<StoredSample>, node: string, a: int, b: int)
  {
    exists t :: a <= t < b && Ticked(rows, node, t)
  }

  /** Every stretch of the window longer than `tol` holds a tick that a sample of the node covers. */
  ghost predicate NodeCovered(rows: seq<StoredSample>, node: string, from: int, to: int, tol: nat)
  {
    forall a, b :: from <= a && b <= to && b - a > tol ==> TickedWithin(rows, node, a, b)
  }

  /** The rows a loop keeps, in order. */
  function Keep(rows: seq<StoredSample>, keep: StoredSample -> bool): (r: seq<StoredSample>)
    ensures forall x :: x in r <==> x in rows && keep(x)
  {
    if rows == [] then []
    else Keep(rows[..|rows| - 1], keep) + if keep(rows[|rows| - 1]) then [rows[|rows| - 1]] else []
  }

  /** What is swept for a node may leave out rows that reach nowhere into the window. */
  lemma SweptRowsDecide(rows: seq<StoredSample>, swept: seq<StoredSample>, node: string, from: int, to: int, tol: nat)
    requires forall r :: r in swept ==> r in rows && r.node == node
    requires forall r :: r in rows && r.node == node && Overlaps(r, from, to) ==> r in swept
    ensures NoLongGap(swept, from, to, tol) <==> NodeCovered(rows, node, from, to, tol)
  {
    forall a, b | from <= a < b <= to
      ensures Uncovered(swept, a, b) <==> !TickedWithin(rows, node, a, b)
    {
      if TickedWithin(rows, node, a, b) {
        var t :| a <= t < b && Ticked(rows, node, t);
        var r :| r in rows && r.node == node && Covers(r, t);
        assert r in swept && Covers(r, t);
      }
      if !Uncovered(swept, a, b) {
        var r, t :| r in swept && a <= t < b && Covers(r, t);
        assert Ticked(rows, node, t);
      }
    }
  }

  /** Sort and sweep the rows kept for one node. */
  method NodeSweep(kept: seq<StoredSample>, ghost rows: seq<StoredSample>, ghost node: string, from: int, to: int, tol: nat) returns (ok: bool)
    requires from <= to && Inside(kept, from, to)
    requires forall r :: r in kept ==> r in rows && r.node == node
    requires forall r :: r in rows && r.node == node && Overlaps(r, from, to) ==> r in kept
    ensures Forward(rows) ==> ok == NodeCovered(rows, node, from, to, tol)
  {
    var sorted := SortByStart(kept);
    forall r
      ensures r in sorted <==> r in kept
    {
      assert r in sorted <==> r in multiset(sorted);
      assert r in kept <==> r in multiset(kept);
    }
    ok := Sweep(sorted, from, to, tol);
    SameRowsSameGaps(sorted, kept, from, to, tol);
    SweptRowsDecide(rows, kept, node, from, to, tol);
  }

  // ---------- coverage.go ----------

  ghost function SumBy(rows: seq<StoredSample>, value: StoredSample -> int): int
  {
    if rows == [] then 0 else SumBy(rows[..|rows| - 1], value) + value(rows[|rows| - 1])
  }

  /** Every row is inside the window, proven, and counts something the response can carry. */
  ghost predicate Averageable(rows: seq<StoredSample>, from: int, to: int, value: StoredSample -> int)
  {
    && (forall r :: r in rows ==> Usable(r, from, to) && value(r) >= 0)
    && SumBy(rows, value) <= MAX_SAFE_INTEGER
  }

  lemma {:induction false} AverageablePrefix(rows: seq<StoredSample>, i: nat, from: int, to: int, value: StoredSample -> int)
    requires i <= |rows| && Averageable(rows, from, to, value)
    ensures Averageable(rows[..i], from, to, value)
    decreases |rows| - i
  {
    if i < |rows| {
      AverageablePrefix(rows, i + 1, from, to, value);
      assert rows[..i + 1][..i] == rows[..i] && rows[i] in rows[..i + 1];
    } else {
      assert rows[..i] == rows;
    }
  }

  /** The first loop of coveredAverageBy: None when some row spoils the average. */
  method AddUp(rows: seq<StoredSample>, from: int, to: int, value: StoredSample -> int) returns (tokens: Option<int>)
    ensures tokens == if Averageable(rows, from, to, value) then Some(SumBy(rows, value)) else None
  {
    var sum := 0;
    for i := 0 to |rows|
      invariant Averageable(rows[..i], from, to, value) && sum == SumBy(rows[..i], value)
    {
      var row := rows[i];
      assert rows[..i + 1][..i] == rows[..i] && rows[..i + 1] == rows[..i] + [row];
      if !Usable(row, from, to) || value(row) < 0 || sum > MAX_SAFE_INTEGER - value(row) {
        if Averageable(rows, from, to, value) {
          AverageablePrefix(rows, i + 1, from, to, value);
        }
        return None;
      }
      sum := sum + value(row);
    }
    assert rows[..|rows|] == rows;
    tokens := Some(sum);
  }

  /** coveredAverageBy: an average exists exactly when the whole interval is proven for every node that
      has rows, and then it is the sum over the length of the interval. */
  method CoveredAverageBy(rows: seq<StoredSample>, from: int, to: int, value: StoredSample -> int, tol: nat) returns (average: Option<real>)
    ensures average.Some? ==> from < to && average.value == SumBy(rows, value) as real / (to - from) as real
    ensures Forward(rows) ==> (average.Some? <==>
              && rows != [] && from < to
              && (forall r :: r in rows ==>
                    from <= r.sample.started && r.sample.ended <= to && r.sample.coverage == Proven && r.sample.resets <= 0 && value(r) >= 0)
              && SumBy(rows, value) <= 9007199254740991
              && forall row :: row in rows ==> NodeCovered(rows, row.node, from, to, tol))
  {
    if rows == [] || to <= from {
      return None;
    }
    var tokens := AddUp(rows, from, to, value);
    if tokens.None? {
      return None;
    }
    var todo := set row | row in rows :: row.node;
    while todo != {}
      invariant todo <= set row | row in rows :: row.node
      invariant Forward(rows) ==> forall row :: row in rows && row.node !in todo ==> NodeCovered(rows, row.node, from, to, tol)
    {
      var node :| node in todo;
      var kept := Keep(rows, (r: StoredSample) => r.node == node);
      var ok := NodeSweep(kept, rows, node, from, to, tol);
      if !ok {
        return None;
      }
      todo := todo - {node};
    }
    average := Some(tokens.value as real / (to - from) as real);
  }

  // ---------- overview.go, liveWindow ----------

  predicate Live(row: StoredSample, enabled: set<string>, start: int, end: int)
  {
    row.node in enabled && Overlaps(row, start, end)
  }

  /** Each addition passes safeAdd. */
  ghost predicate SafeSums(rows: seq<StoredSample>)
  {
    rows == [] || (SafeSums(rows[..|rows| - 1]) && SafeAdd(Sum(rows[..|rows| - 1]), OfRow(rows[|rows| - 1])))
  }

  ghost function LiveRows(rows: seq<StoredSample>, enabled: set<string>, start: int, end: int): seq<StoredSample>
  {
    Keep(rows, (r: StoredSample) => Live(r, enabled, start, end))
  }

  ghost predicate LiveUsable(rows: seq<StoredSample>, enabled: set<string>, start: int, end: int)
  {
    && (forall r :: r in rows && Live(r, enabled, start, end) ==> Usable(r, start, end))
    && SafeSums(LiveRows(rows, enabled, start, end))
  }

  lemma LiveStep(rows: seq<StoredSample>, i: nat, enabled: set<string>, start: int, end: int)
    requires i < |rows|
    ensures LiveRows(rows[..i + 1], enabled, start, end) ==
            if Live(rows[i], enabled, start, end) then LiveRows(rows[..i], enabled, start, end) + [rows[i]]
            else LiveRows(rows[..i], enabled, start, end)
  {
    assert rows[..i + 1][..i] == rows[..i];
  }

  /** What one more row changes. */
  lemma LiveUsableStep(rows: seq<StoredSample>, i: nat, enabled: set<string>, start: int, end: int)
    requires i < |rows|
    ensures LiveUsable(rows[..i + 1], enabled, start, end) <==>
            && LiveUsable(rows[..i], enabled, start, end)
            && (Live(rows[i], enabled, start, end) ==>
                Usable(rows[i], start, end) && SafeAdd(Sum(LiveRows(rows[..i], enabled, start, end)), OfRow(rows[i])))
    ensures Live(rows[i], enabled, start, end) ==>
            Sum(LiveRows(rows[..i + 1], enabled, start, end)) == Add(Sum(LiveRows(rows[..i], enabled, start, end)), OfRow(rows[i]))
  {
    assert rows[..i + 1] == rows[..i] + [rows[i]];
    LiveStep(rows, i, enabled, start, end);
    var before, after := LiveRows(rows[..i], enabled, start, end), LiveRows(rows[..i + 1], enabled, start, end);
    assert Live(rows[i], enabled, start, end) ==> after[..|after| - 1] == before && after[|after| - 1] == rows[i];
  }

  lemma {:induction false} LiveUsablePrefix(rows: seq<StoredSample>, i: nat, enabled: set<string>, start: int, end: int)
    requires i <= |rows| && LiveUsable(rows, enabled, start, end)
    ensures LiveUsable(rows[..i], enabled, start, end)
    decreases |rows| - i
  {
    if i < |rows| {
      LiveUsablePrefix(rows, i + 1, enabled, start, end);
      LiveUsableStep(rows, i, enabled, start, end);
    } else {
      assert rows[..i] == rows;
    }
  }

  /** The first loop of liveWindow. */
  method AddLive(rows: seq<StoredSample>, enabled: set<string>, start: int, end: int) returns (total: Option<Totals>)
    ensures total == if LiveUsable(rows, enabled, start, end) then Some(Sum(LiveRows(rows, enabled, start, end))) else None
  {
    var sum := ZERO_TOTALS;
    for i := 0 to |rows|
      invariant LiveUsable(rows[..i], enabled, start, end) && sum == Sum(LiveRows(rows[..i], enabled, start, end))
    {
      var row := rows[i];
      LiveStep(rows, i, enabled, start, end);
      LiveUsableStep(rows, i, enabled, start, end);
      if Live(row, enabled, start, end) {
        if !Usable(row, start, end) || !SafeAdd(sum, OfRow(row)) {
          if LiveUsable(rows, enabled, start, end) {
            LiveUsablePrefix(rows, i + 1, enabled, start, end);
          }
          return None;
        }
        sum := Add(sum, OfRow(row));
      }
    }
    assert rows[..|rows|] == rows;
    total := Some(sum);
  }

  /** Sums of sound rows are safe exactly if all nine counters of the last one are in range. */
  lemma {:induction false} SafeSumsFit(rows: seq<StoredSample>)
    requires forall r :: r in rows ==> r.sample.Sound()
    ensures Consistent(Sum(rows)) && (SafeSums(rows) <==> InRange(Sum(rows)))
  {
    hide Add, OfRow, SafeAdd, InRange, Consistent, Sample.Sound;
    if rows == [] {
      assert Consistent(ZERO_TOTALS) && InRange(ZERO_TOTALS) by {
        NothingFits();
      }
    } else {
      var front, last := rows[..|rows| - 1], rows[|rows| - 1];
      SafeSumsFit(front);
      SoundRowIsConsistent(last);
      FourChecksGuardNine(Sum(front), OfRow(last));
      FrontFits(Sum(front), OfRow(last));
    }
  }

  lemma NothingFits()
    ensures Consistent(ZERO_TOTALS) && InRange(ZERO_TOTALS)
  {
  }

  lemma FrontFits(a: Totals, b: Totals)
    requires Consistent(a) && Consistent(b)
    ensures InRange(Add(a, b)) ==> InRange(a)
  {
    assert Add(a, b).calls == a.calls + b.calls && Add(a, b).total == a.total + b.total;
  }

  /** The live rows can be summed if they lie inside the window, are proven and without a reset, and their totals are in
      range. */
  lemma LiveUsableMeans(rows: seq<StoredSample>, enabled: set<string>, start: int, end: int)
    requires forall r :: r in rows ==> r.sample.Sound()
    ensures LiveUsable(rows, enabled, start, end) <==>
              && (forall r :: r in rows && r.node in enabled && r.sample.ended > start && r.sample.started < end ==>
                    start <= r.sample.started && r.sample.ended <= end && r.sample.coverage == Proven && r.sample.resets <= 0)
              && InRange(Sum(LiveRows(rows, enabled, start, end)))
  {
    hide SafeSums, InRange, Sum, Consistent, Sample.Sound;
    var live := LiveRows(rows, enabled, start, end);
    assert forall r :: r in live ==> r in rows;
    SafeSumsFit(live);
    hide LiveRows;
  }

  /** The sum of the live rows books them. */
  lemma LiveIsBooked(rows: seq<StoredSample>, enabled: set<string>, start: int, end: int)
    ensures Booked(Sum(LiveRows(rows, enabled, start, end)), rows,
                   (r: StoredSample) => r.node in enabled && r.sample.ended > start && r.sample.started < end)
  {
    var live := (r: StoredSample) => r.node in enabled && r.sample.ended > start && r.sample.started < end;
    assert forall r :: Live(r, enabled, start, end) <==> live(r);
    hide Booked, Live;
    LiveIsBookedAs(rows, enabled, start, end, live);
  }

  lemma {:induction false} LiveIsBookedAs(rows: seq<StoredSample>, enabled: set<string>, start: int, end: int, live: StoredSample -> bool)
    requires forall r :: Live(r, enabled, start, end) <==> live(r)
    ensures Booked(Sum(LiveRows(rows, enabled, start, end)), rows, live)
  {
    hide *;
    if rows == [] {
      NoLiveRows(enabled, start, end);
      NothingIsBooked(live);
    } else {
      var front, last := rows[..|rows| - 1], rows[|rows| - 1];
      var before := LiveRows(front, enabled, start, end);
      LiveIsBookedAs(front, enabled, start, end, live);
      LiveStep(rows, |front|, enabled, start, end);
      assert rows[..|front| + 1] == rows == front + [last];
      BookedMore(Sum(before), front, last, live);
      SumOfMore(before, last);
    }
  }

  lemma NoLiveRows(enabled: set<string>, start: int, end: int)
    ensures Sum(LiveRows([], enabled, start, end)) == ZERO_TOTALS
  {
  }

  lemma SumOfMore(rows: seq<StoredSample>, row: StoredSample)
    ensures Sum(rows + [row]) == Add(Sum(rows), OfRow(row))
  {
    FoldOfMore(rows, row, OfRow);
  }

  /** liveWindow: a total exists exactly when every enabled node is covered in the window, and then it is
      the sum of the enabled rows that reach into it. */
  method LiveWindow(rows: seq<StoredSample>, enabled: set<string>, start: int, end: int, tol: nat) returns (total: Option<Totals>)
    requires start <= end
    ensures total.Some? ==> total.value == Sum(LiveRows(rows, enabled, start, end))
    ensures total.Some? ==>
              Booked(total.value, rows, (r: StoredSample) => r.node in enabled && r.sample.ended > start && r.sample.started < end)
    ensures Forward(rows) ==> (total.Some? <==>
              && LiveUsable(rows, enabled, start, end)
              && forall node :: node in enabled ==> NodeCovered(rows, node, start, end, tol))
  {
    hide Booked, Sum;
    LiveIsBooked(rows, enabled, start, end);
    total := AddLive(rows, enabled, start, end);
    if total.None? {
      return;
    }
    var todo := enabled;
    while todo != {}
      invariant todo <= enabled
      invariant Forward(rows) ==> forall node :: node in enabled && node !in todo ==> NodeCovered(rows, node, start, end, tol)
    {
      var node :| node in todo;
      var kept := Keep(rows, (r: StoredSample) => r.node == node && Overlaps(r, start, end));
      var ok := NodeSweep(kept, rows, node, start, end, tol);
      if !ok {
        return None;
      }
      todo := todo - {node};
    }
  }

  // ---------- overview_aggregate.go, trendCoverage ----------

  datatype Verdict = Missing | Partial | Full

  ghost predicate HasEvidence(rows: seq<StoredSample>, from: int, to: int)
  {
    exists r :: r in rows && Overlaps(r, from, to)
  }

  ghost predicate AllUsable(rows: seq<StoredSample>, from: int, to: int)
  {
    forall r :: r in rows && Overlaps(r, from, to) ==> Usable(r, from, to)
  }

  ghost predicate NodeProven(rows: seq<StoredSample>, node: string, from: int, to: int, tol: nat)
  {
    && (exists r :: r in rows && r.node == node && Overlaps(r, from, to))
    && NodeCovered(rows, node, from, to, tol)
  }

  /** What a bucket's coverage means: missing without any sample, full when every sample is usable and
      every expected node is covered. */
  ghost function TrendVerdict(rows: seq<StoredSample>, expected: set<string>, from: int, to: int, tol: nat): Verdict
  {
    if to <= from || expected == {} || !HasEvidence(rows, from, to) then Missing
    else if AllUsable(rows, from, to) && forall node :: node in expected ==> NodeProven(rows, node, from, to, tol) then Full
    else Partial
  }

  /** A range without a sample is missing.  It is full if its samples lie inside it, are proven and without a reset, and no
      node is without a sample that reaches into it or goes uncovered for longer than `tol`. */
  lemma VerdictMeans(rows: seq<StoredSample>, expected: set<string>, from: int, to: int, tol: nat)
    requires from < to && expected != {}
    ensures TrendVerdict(rows, expected, from, to, tol) == Missing <==> forall r :: r in rows ==> r.sample.ended <= from || to <= r.sample.started
    ensures TrendVerdict(rows, expected, from, to, tol) == Full <==>
              && (forall r :: r in rows && r.sample.ended > from && r.sample.started < to ==>
                    from <= r.sample.started && r.sample.ended <= to && r.sample.coverage == Proven && r.sample.resets <= 0)
              && forall node :: node in expected ==>
                   && (exists r :: r in rows && r.node == node && r.sample.ended > from && r.sample.started < to)
                   && NodeCovered(rows, node, from, to, tol)
  {
    hide NodeCovered;
    if forall node :: node in expected ==> NodeProven(rows, node, from, to, tol) {
      var node :| node in expected;
      assert NodeProven(rows, node, from, to, tol);
      assert HasEvidence(rows, from, to);
    }
    forall node
      ensures NodeProven(rows, node, from, to, tol) <==>
                && (exists r :: r in rows && r.node == node && r.sample.ended > from && r.sample.started < to)
                && NodeCovered(rows, node, from, to, tol)
    {
    }
  }

  /** The first loop of trendCoverage: Some(hasEvidence) unless a sample is unusable. */
  method Evidence(rows: seq<StoredSample>, from: int, to: int) returns (hasEvidence: Option<bool>)
    ensures hasEvidence.Some? <==> AllUsable(rows, from, to)
    ensures hasEvidence.Some? ==> hasEvidence.value == HasEvidence(rows, from, to)
    ensures hasEvidence.None? ==> HasEvidence(rows, from, to)
  {
    var seen := false;
    for i := 0 to |rows|
      invariant AllUsable(rows[..i], from, to) && seen == HasEvidence(rows[..i], from, to)
    {
      assert rows[..i + 1] == rows[..i] + [rows[i]] && rows[i] in rows;
      if Overlaps(rows[i], from, to) {
        if !Usable(rows[i], from, to) {
          return None;
        }
        seen := true;
      }
    }
    assert rows[..|rows|] == rows;
    hasEvidence := Some(seen);
  }

  /** trendCoverage. */
  method TrendCoverage(rows: seq<StoredSample>, expected: set<string>, from: int, to: int, tol: nat) returns (v: Verdict)
    ensures Forward(rows) ==> v == TrendVerdict(rows, expected, from, to, tol)
  {
    if to <= from || expected == {} {
      return Missing;
    }
    var hasEvidence := Evidence(rows, from, to);
    if hasEvidence.None? {
      return Partial;
    }
    var todo := expected;
    while todo != {}
      invariant todo <= expected
      invariant todo != expected ==> HasEvidence(rows, from, to)
      invariant Forward(rows) ==> forall node :: node in expected && node !in todo ==> NodeProven(rows, node, from, to, tol)
    {
      var node :| node in todo;
      var kept := Keep(rows, (r: StoredSample) => r.node == node && Overlaps(r, from, to));
      if kept == [] {
        assert !exists r :: r in rows && r.node == node && Overlaps(r, from, to) by {
          assert forall r :: r in rows && r.node == node && Overlaps(r, from, to) ==> r in kept;
        }
        return if hasEvidence.value then Partial else Missing;
      }
      assert kept[0] in kept;
      var ok := NodeSweep(kept, rows, node, from, to, tol);
      if !ok {
        return Partial;
      }
      todo := todo - {node};
    }
    v := Full;
  }

  // ---------- coverage.go, observedOutputAverage ----------

  ghost function Range(a: int, b: int): (r: set<int>)
    ensures forall t :: t in r <==> a <= t < b
    ensures a <= b ==> |r| == b - a
    decreases b - a
  {
    if a >= b then {} else Range(a, b - 1) + {b - 1}
  }

  /** The ticks some sample covers. */
  ghost function Observed(rows: seq<StoredSample>): set<int>
  {
    if rows == [] then {}
    else Observed(rows[..|rows| - 1]) + Range(rows[|rows| - 1].sample.started, rows[|rows| - 1].sample.ended)
  }

  lemma CoveredRange(row: StoredSample, t: int)
    ensures t in Range(row.sample.started, row.sample.ended) <==> Covers(row, t)
  {
  }

  lemma {:induction false} ObservedTicks(rows: seq<StoredSample>, t: int)
    ensures t in Observed(rows) <==> exists r :: r in rows && Covers(r, t)
  {
    hide Range, Covers;
    if rows != [] {
      var front, last := rows[..|rows| - 1], rows[|rows| - 1];
      ObservedTicks(front, t);
      CoveredRange(last, t);
      if r :| r in rows && Covers(r, t) {
        assert r in front || r == last;
      }
      if r :| r in front && Covers(r, t) {
        assert r in rows;
      }
    }
  }

  /** The merge loop keeps the last merged interval open: its ticks are still to be counted. */
  ghost predicate Merged(rows: seq<StoredSample>, observed: int, start: int, end: int)
  {
    && start < end
    && (forall r :: r in rows ==> r.sample.ended <= end)
    && Range(start, end) <= Observed(rows)
    && |Observed(rows) - Range(start, end)| == observed
    && forall t :: t in Observed(rows) - Range(start, end) ==> t < start
  }

  lemma CloseInterval(rows: seq<StoredSample>, observed: int, start: int, end: int)
    requires Merged(rows, observed, start, end)
    ensures |Observed(rows)| == observed + (end - start)
  {
    assert Observed(rows) == (Observed(rows) - Range(start, end)) + Range(start, end);
  }

  lemma ObservedMore(rows: seq<StoredSample>, row: StoredSample)
    ensures Observed(rows + [row]) == Observed(rows) + Range(row.sample.started, row.sample.ended)
  {
    assert (rows + [row])[..|rows|] == rows;
  }

  /** A gap: close the open interval and open the row's. */
  lemma MergeApart(rows: seq<StoredSample>, row: StoredSample, observed: int, start: int, end: int)
    requires Merged(rows, observed, start, end)
    requires end < row.sample.started < row.sample.ended
    ensures Merged(rows + [row], observed + (end - start), row.sample.started, row.sample.ended)
  {
    ObservedMore(rows, row);
    CloseInterval(rows, observed, start, end);
    forall t | t in Observed(rows)
      ensures t < row.sample.started
    {
      assert t in Observed(rows) - Range(start, end) || t in Range(start, end);
    }
    assert Observed(rows + [row]) - Range(row.sample.started, row.sample.ended) == Observed(rows);
  }

  /** No gap: the open interval grows. */
  lemma MergeJoin(rows: seq<StoredSample>, row: StoredSample, observed: int, start: int, end: int, next: int)
    requires Merged(rows, observed, start, end)
    requires start <= row.sample.started <= end && row.sample.started < row.sample.ended
    requires next == if row.sample.ended > end then row.sample.ended else end
    ensures Merged(rows + [row], observed, start, next)
  {
    hide Range, Observed;
    ObservedMore(rows, row);
    var before, after := Observed(rows) - Range(start, end), Observed(rows + [row]) - Range(start, next);
    forall t
      ensures t in before <==> t in after
    {
      if t in Observed(rows) && t !in Range(start, end) {
        assert t in before && t < start;
      }
    }
    assert before == after;
    forall t | t in Range(start, next)
      ensures t in Observed(rows + [row])
    {
      assert t in Range(start, end) || t in Range(row.sample.started, row.sample.ended);
    }
  }

  lemma FirstInterval(row: StoredSample)
    requires row.sample.started < row.sample.ended
    ensures Merged([row], 0, row.sample.started, row.sample.ended)
  {
    ObservedMore([], row);
    assert [] + [row] == [row];
    assert Observed([row]) - Range(row.sample.started, row.sample.ended) == {};
  }

  /** The merge loop of observedOutputAverage, over sorted intervals: the length of their union. */
  method MergeIntervals(intervals: seq<StoredSample>) returns (observed: int)
    requires intervals != [] && Sorted(intervals) && Forward(intervals)
    ensures observed == |Observed(intervals)|
  {
    hide Merged;
    observed := 0;
    var start, end := intervals[0].sample.started, intervals[0].sample.ended;
    assert intervals[0] in intervals && intervals[..1] == [intervals[0]];
    FirstInterval(intervals[0]);
    for i := 1 to |intervals|
      invariant Merged(intervals[..i], observed, start, end)
      invariant start <= intervals[i - 1].sample.started
    {
      var row := intervals[i].sample;
      assert StartsBefore(intervals[i - 1], intervals[i]) && intervals[i] in intervals;
      assert intervals[..i + 1] == intervals[..i] + [intervals[i]];
      if row.started > end {
        MergeApart(intervals[..i], intervals[i], observed, start, end);
        observed := observed + (end - start);
        start, end := row.started, row.ended;
      } else {
        MergeJoin(intervals[..i], intervals[i], observed, start, end, if row.ended > end then row.ended else end);
        if row.ended > end {
          end := row.ended;
        }
      }
    }
    assert intervals[..|intervals|] == intervals;
    CloseInterval(intervals, observed, start, end);
    observed := observed + (end - start);
  }

  function OutputOf(row: StoredSample): int
  {
    row.sample.output
  }

  /** Every row can be counted as generation time. */
  ghost predicate Observable(rows: seq<StoredSample>, from: int, to: int)
  {
    Forward(rows) && Averageable(rows, from, to, OutputOf)
  }

  /** The first loop of observedOutputAverage. */
  method AddOutput(rows: seq<StoredSample>, from: int, to: int) returns (tokens: Option<int>)
    ensures tokens == if Observable(rows, from, to) then Some(SumBy(rows, OutputOf)) else None
  {
    var sum := 0;
    for i := 0 to |rows|
      invariant Observable(rows[..i], from, to) && sum == SumBy(rows[..i], OutputOf)
    {
      var row := rows[i];
      assert rows[..i + 1][..i] == rows[..i] && rows[..i + 1] == rows[..i] + [row];
      if !Usable(row, from, to) || row.sample.ended <= row.sample.started || row.sample.output < 0 || sum > MAX_SAFE_INTEGER - row.sample.output {
        if Observable(rows, from, to) {
          AverageablePrefix(rows, i + 1, from, to, OutputOf);
        }
        return None;
      }
      sum := sum + row.sample.output;
    }
    assert rows[..|rows|] == rows;
    tokens := Some(sum);
  }

  lemma {:induction false} OutputIsSummed(rows: seq<StoredSample>)
    ensures SumBy(rows, OutputOf) == SumIf(rows, (r: StoredSample) => true, (r: StoredSample) => r.sample.output)
  {
    if rows != [] {
      OutputIsSummed(rows[..|rows| - 1]);
    }
  }

  /** The output is averaged over samples inside the window, proven, without a reset, with some length and an output that
      is not negative, if together they do not exceed what a JSON number carries. */
  lemma ObservableMeans(rows: seq<StoredSample>, from: int, to: int)
    ensures Observable(rows, from, to) <==>
              && (forall r :: r in rows ==>
                    && from <= r.sample.started < r.sample.ended <= to && r.sample.coverage == Proven && r.sample.resets <= 0
                    && r.sample.output >= 0)
              && SumIf(rows, (r: StoredSample) => true, (r: StoredSample) => r.sample.output) <= 9007199254740991
  {
    OutputIsSummed(rows);
    hide SumBy, SumIf;
  }

  /** observedOutputAverage: the output divided by the number of ticks at least one sample covers. */
  method ObservedOutputAverage(rows: seq<StoredSample>, from: int, to: int) returns (average: Option<real>)
    ensures average.Some? <==> rows != [] && from < to && Observable(rows, from, to)
    ensures average.Some? ==> |Observed(rows)| > 0 && average.value == SumBy(rows, OutputOf) as real / |Observed(rows)| as real
    ensures SumBy(rows, OutputOf) == SumIf(rows, (r: StoredSample) => true, (r: StoredSample) => r.sample.output)
  {
    OutputIsSummed(rows);
    if rows == [] || to <= from {
      return None;
    }
    var tokens := AddOutput(rows, from, to);
    if tokens.None? {
      return None;
    }
    var intervals := SortByStart(rows);
    forall r
      ensures r in intervals <==> r in rows
    {
      assert r in intervals <==> r in multiset(intervals);
      assert r in rows <==> r in multiset(rows);
    }
    assert rows[0] in intervals;
    ObservedDependsOnRows(intervals, rows);
    var observed := MergeIntervals(intervals);
    ObservedTicks(rows, rows[0].sample.started);
    assert Covers(rows[0], rows[0].sample.started);
    if observed <= 0 {
      return None;
    }
    average := Some(tokens.value as real / observed as real);
  }

  /** Neither the order of the samples nor their overlaps change what is observed. */
  lemma ObservedDependsOnRows(r: seq<StoredSample>, s: seq<StoredSample>)
    requires forall x :: x in r <==> x in s
    ensures Observed(r) == Observed(s)
  {
    forall t
      ensures t in Observed(r) <==> t in Observed(s)
    {
      ObservedTicks(r, t);
      ObservedTicks(s, t);
    }
  }

  lemma {:induction false} SumByOfConcat(r: seq<StoredSample>, s: seq<StoredSample>, value: StoredSample -> int)
    ensures SumBy(r + s, value) == SumBy(r, value) + SumBy(s, value)
  {
    if s == [] {
      assert r + s == r;
    } else {
      assert (r + s)[..|r + s| - 1] == r + s[..|s| - 1];
      SumByOfConcat(r, s[..|s| - 1], value);
    }
  }

  lemma SumByWithout(s: seq<StoredSample>, i: nat, value: StoredSample -> int)
    requires i < |s|
    ensures SumBy(s, value) == SumBy(s[..i] + s[i + 1..], value) + value(s[i])
  {
    Without(s, i);
    SumByOfConcat(s[..i], s[i + 1..], value);
    assert (s[..i] + [s[i]])[..i] == s[..i];
    SumByOfConcat(s[..i] + [s[i]], s[i + 1..], value);
  }

  lemma {:induction false} SumByOfPermutation(r: seq<StoredSample>, s: seq<StoredSample>, value: StoredSample -> int)
    requires multiset(r) == multiset(s)
    ensures SumBy(r, value) == SumBy(s, value)
    decreases |r|
  {
    if r == [] {
      assert |multiset(s)| == |s| == 0;
    } else {
      var i := FirstElsewhere(r, s);
      assert SumBy(r, value) == SumBy(r[1..], value) + value(r[0]) by {
        SumByWithout(r, 0, value);
        assert r[..0] + r[1..] == r[1..];
      }
      SumByWithout(s, i, value);
      SumByOfPermutation(r[1..], s[..i] + s[i + 1..], value);
    }
  }

  /** The observed average is the same for every arrangement of the samples. */
  lemma ArrangementDoesNotMatter(r: seq<StoredSample>, s: seq<StoredSample>, from: int, to: int)
    requires multiset(r) == multiset(s)
    ensures Observable(r, from, to) <==> Observable(s, from, to)
    ensures SumBy(r, OutputOf) == SumBy(s, OutputOf) && Observed(r) == Observed(s)
  {
    forall x
      ensures x in r <==> x in s
    {
      assert x in r <==> x in multiset(r);
      assert x in s <==> x in multiset(s);
    }
    SumByOfPermutation(r, s, OutputOf);
    ObservedDependsOnRows(r, s);
  }
}
