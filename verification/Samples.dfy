/** Usage samples and their totals, backend/database/aimonitor (store.go, retention.go, limits.go).

Times are whole ticks, SECOND of them to a second; costs are left out. */
module Samples {

  const SECOND: nat := 1_000_000
  const MAX_SAFE_INTEGER: int := 9007199254740991
  const MAX_COUNTER: int := 1_000_000_000_000

  type SampleId = nat

  /** The wire's optional coverage flag. */
  datatype Coverage = Unstated | Broken | Proven

  datatype Sample = Sample(
    id: SampleId, started: int, ended: int,
    model: string, provider: string, billingMode: string, task: string,
    calls: int, input: int, output: int, cacheRead: int, cacheWrite: int, reasoning: int,
    coverage: Coverage, resets: int)
  {
    function TotalTokens(): int
    {
      input + output + cacheRead + cacheWrite
    }

    /** The part of Report.Validate that looks at counters and the interval's direction. */
    predicate Sound()
    {
      && started < ended
      && Counter(calls) && Counter(input) && Counter(output) && Counter(cacheRead) && Counter(cacheWrite)
      && Counter(reasoning) && Counter(resets)
      && reasoning <= output
    }
  }

  predicate Counter(v: int)
  {
    0 <= v <= MAX_COUNTER
  }

  /** A detailed row; `priced` says whether a pricing rule gave it a cost. */
  datatype StoredSample = StoredSample(node: string, sample: Sample, priceId: nat, priced: bool)

  datatype Totals = Totals(
    calls: int, input: int, output: int, cacheRead: int, cacheWrite: int, reasoning: int,
    total: int, unpriced: int, priced: int)

  const ZERO_TOTALS: Totals := Totals(0, 0, 0, 0, 0, 0, 0, 0, 0)

  /** Totals.add. */
  function Add(t: Totals, v: Totals): Totals
  {
    Totals(t.calls + v.calls, t.input + v.input, t.output + v.output, t.cacheRead + v.cacheRead,
           t.cacheWrite + v.cacheWrite, t.reasoning + v.reasoning, t.total + v.total,
           t.unpriced + v.unpriced, t.priced + v.priced)
  }

  /** What Totals.addSample makes of empty totals. */
  function OfRow(row: StoredSample): Totals
  {
    var s := row.sample;
    Totals(s.calls, s.input, s.output, s.cacheRead, s.cacheWrite, s.reasoning, s.TotalTokens(),
           if row.priced then 0 else s.calls, if row.priced then s.calls else 0)
  }

  /** The totals of a list, each element contributing its part. */
  function Fold<T>(s: seq<T>, part: T -> Totals): Totals
  {
    if s == [] then ZERO_TOTALS else Add(Fold(s[..|s| - 1], part), part(s[|s| - 1]))
  }

  function Sum(rows: seq<StoredSample>): Totals
  {
    Fold(rows, OfRow)
  }

  lemma AddLaws(a: Totals, b: Totals, c: Totals)
    ensures Add(Add(a, b), c) == Add(a, Add(b, c))
    ensures Add(a, b) == Add(b, a)
    ensures Add(a, ZERO_TOTALS) == a && Add(ZERO_TOTALS, a) == a
  {
  }

  predicate FitsTogether(a: int, b: int)
  {
    a >= 0 && b >= 0 && a <= MAX_SAFE_INTEGER - b
  }

  /** limits.go checks four of the nine counters. */
  predicate SafeAdd(a: Totals, b: Totals)
  {
    && FitsTogether(a.calls, b.calls) && FitsTogether(a.total, b.total)
    && FitsTogether(a.unpriced, b.unpriced) && FitsTogether(a.priced, b.priced)
  }

  /** The books of a total balance: the parts add up and nothing is negative. */
  predicate Consistent(t: Totals)
  {
    && 0 <= t.input && 0 <= t.output && 0 <= t.cacheRead && 0 <= t.cacheWrite && 0 <= t.unpriced && 0 <= t.priced
    && 0 <= t.reasoning <= t.output
    && t.total == t.input + t.output + t.cacheRead + t.cacheWrite
    && t.calls == t.unpriced + t.priced
  }

  /** Every counter can be written as a JSON number without loss. */
  predicate InRange(t: Totals)
  {
    && 0 <= t.calls <= MAX_SAFE_INTEGER && 0 <= t.input <= MAX_SAFE_INTEGER && 0 <= t.output <= MAX_SAFE_INTEGER
    && 0 <= t.cacheRead <= MAX_SAFE_INTEGER && 0 <= t.cacheWrite <= MAX_SAFE_INTEGER
    && 0 <= t.reasoning <= MAX_SAFE_INTEGER && 0 <= t.total <= MAX_SAFE_INTEGER
    && 0 <= t.unpriced <= MAX_SAFE_INTEGER && 0 <= t.priced <= MAX_SAFE_INTEGER
  }

  lemma SoundRowIsConsistent(row: StoredSample)
    requires row.sample.Sound()
    ensures Consistent(OfRow(row)) && InRange(OfRow(row))
  {
  }

  /** Four checks guard all nine counters, because the other five are parts of the four, and they refuse nothing else. */
  lemma FourChecksGuardNine(a: Totals, b: Totals)
    requires Consistent(a) && Consistent(b)
    ensures Consistent(Add(a, b))
    ensures SafeAdd(a, b) <==> InRange(Add(a, b))
    ensures SafeAdd(a, b) <==>
              && a.calls + b.calls <= 9007199254740991 && a.input + b.input <= 9007199254740991 && a.output + b.output <= 9007199254740991
              && a.cacheRead + b.cacheRead <= 9007199254740991 && a.cacheWrite + b.cacheWrite <= 9007199254740991
              && a.reasoning + b.reasoning <= 9007199254740991 && a.total + b.total <= 9007199254740991
              && a.unpriced + b.unpriced <= 9007199254740991 && a.priced + b.priced <= 9007199254740991
  {
    var t := Add(a, b);
    assert t.calls == a.calls + b.calls && t.total == a.total + b.total;
  }

  /** Without consistent books they do not: the input counter alone can leave the range. */
  lemma FourChecksNeedConsistency()
    ensures var a := ZERO_TOTALS.(input := MAX_SAFE_INTEGER);
            SafeAdd(a, a) && !InRange(Add(a, a))
  {
  }

  lemma {:induction false} FoldOfConcat<T>(r: seq<T>, s: seq<T>, part: T -> Totals)
    ensures Fold(r + s, part) == Add(Fold(r, part), Fold(s, part))
  {
    if s == [] {
      assert r + s == r;
      AddLaws(Fold(r, part), ZERO_TOTALS, ZERO_TOTALS);
    } else {
      var s', last := s[..|s| - 1], part(s[|s| - 1]);
      assert (r + s)[..|r + s| - 1] == r + s';
      FoldOfConcat(r, s', part);
      AddLaws(Fold(r, part), Fold(s', part), last);
      assert Fold(r + s, part) == Add(Fold(r + s', part), last);
    }
  }

  // ---------- what totals count ----------

  /** The sum of a value over the rows that are kept. */
  function SumIf(rows: seq<StoredSample>, keep: StoredSample -> bool, value: StoredSample -> int): int
  {
    if rows == [] then 0
    else SumIf(rows[..|rows| - 1], keep, value) + if keep(rows[|rows| - 1]) then value(rows[|rows| - 1]) else 0
  }

  /** Each of the nine totals counts what its name says of the rows that are kept. */
  ghost predicate Booked(t: Totals, rows: seq<StoredSample>, keep: StoredSample -> bool)
  {
    && t.calls == SumIf(rows, keep, (r: StoredSample) => r.sample.calls)
    && t.input == SumIf(rows, keep, (r: StoredSample) => r.sample.input)
    && t.output == SumIf(rows, keep, (r: StoredSample) => r.sample.output)
    && t.cacheRead == SumIf(rows, keep, (r: StoredSample) => r.sample.cacheRead)
    && t.cacheWrite == SumIf(rows, keep, (r: StoredSample) => r.sample.cacheWrite)
    && t.reasoning == SumIf(rows, keep, (r: StoredSample) => r.sample.reasoning)
    && t.total == SumIf(rows, keep, (r: StoredSample) => r.sample.input + r.sample.output + r.sample.cacheRead + r.sample.cacheWrite)
    && t.unpriced == SumIf(rows, (r: StoredSample) => keep(r) && !r.priced, (r: StoredSample) => r.sample.calls)
    && t.priced == SumIf(rows, (r: StoredSample) => keep(r) && r.priced, (r: StoredSample) => r.sample.calls)
  }

  lemma NothingIsBooked(keep: StoredSample -> bool)
    ensures Booked(ZERO_TOTALS, [], keep)
  {
  }

  lemma BookedMore(t: Totals, rows: seq<StoredSample>, row: StoredSample, keep: StoredSample -> bool)
    requires Booked(t, rows, keep)
    ensures Booked(if keep(row) then Add(t, OfRow(row)) else t, rows + [row], keep)
  {
    assert (rows + [row])[..|rows|] == rows;
  }

  /** Folding the rows of a selection books them. */
  lemma {:induction false} FoldIsBooked(rows: seq<StoredSample>, part: StoredSample -> Totals, keep: StoredSample -> bool)
    requires forall row :: part(row) == if keep(row) then OfRow(row) else ZERO_TOTALS
    ensures Booked(Fold(rows, part), rows, keep)
  {
    hide Add, OfRow;
    if rows == [] {
    } else {
      hide Booked;
      var front, last := rows[..|rows| - 1], rows[|rows| - 1];
      FoldIsBooked(front, part, keep);
      BookedMore(Fold(front, part), front, last, keep);
      AddLaws(Fold(front, part), ZERO_TOTALS, ZERO_TOTALS);
      assert rows == front + [last];
    }
  }

  lemma Without<T>(s: seq<T>, i: nat)
    requires i < |s|
    ensures s == s[..i] + [s[i]] + s[i + 1..]
    ensures multiset(s) == multiset(s[..i] + s[i + 1..]) + multiset{s[i]}
  {
    assert s == s[..i] + [s[i]] + s[i + 1..];
  }

  /** Moving a summand behind the next one. */
  lemma AddSwap(a: Totals, b: Totals, c: Totals)
    ensures Add(Add(a, b), c) == Add(Add(a, c), b)
  {
  }

  lemma FoldOfMore<T>(s: seq<T>, x: T, part: T -> Totals)
    ensures Fold(s + [x], part) == Add(Fold(s, part), part(x))
  {
    assert (s + [x])[..|s|] == s;
  }

  /** Taking one element out of its place takes its part out of the totals. */
  lemma FoldWithout<T>(s: seq<T>, i: nat, part: T -> Totals)
    requires i < |s|
    ensures Fold(s, part) == Add(Fold(s[..i] + s[i + 1..], part), part(s[i]))
  {
    hide *;
    var left, x, right := s[..i], s[i], s[i + 1..];
    FoldOfMore(left, x, part);
    assert s == (left + [x]) + right;
    FoldOfConcat(left, right, part);
    FoldOfConcat(left + [x], right, part);
    AddSwap(Fold(left, part), part(x), Fold(right, part));
  }

  /** Raising one element's part raises the totals by as much. */
  lemma FoldReplace<T>(s: seq<T>, i: nat, x: T, part: T -> Totals, extra: Totals)
    requires i < |s| && part(x) == Add(part(s[i]), extra)
    ensures Fold(s[i := x], part) == Add(Fold(s, part), extra)
  {
    var rest := s[..i] + s[i + 1..];
    assert s[i := x][..i] + s[i := x][i + 1..] == rest;
    FoldWithout(s, i, part);
    FoldWithout(s[i := x], i, part);
    AddLaws(Fold(rest, part), part(s[i]), extra);
  }

  /** Where the first element of one arrangement stands in another. */
  lemma FirstElsewhere<T>(r: seq<T>, s: seq<T>) returns (i: nat)
    requires r != [] && multiset(r) == multiset(s)
    ensures i < |s| && s[i] == r[0] && multiset(r[1..]) == multiset(s[..i] + s[i + 1..])
  {
    assert r == [r[0]] + r[1..];
    assert r[0] in multiset(s);
    i :| 0 <= i < |s| && s[i] == r[0];
    Without(s, i);
    assert multiset(r[1..]) == multiset(r) - multiset{r[0]};
    assert multiset(s[..i] + s[i + 1..]) == multiset(s) - multiset{r[0]};
  }

  /** Totals do not depend on the order of the list. */
  lemma {:induction false} FoldOfPermutation<T>(r: seq<T>, s: seq<T>, part: T -> Totals)
    requires multiset(r) == multiset(s)
    ensures Fold(r, part) == Fold(s, part)
    decreases |r|
  {
    if r == [] {
      assert |multiset(s)| == |s| == 0;
    } else {
      var i := FirstElsewhere(r, s);
      assert Fold(r, part) == Add(Fold(r[1..], part), part(r[0])) by {
        FoldWithout(r, 0, part);
        assert r[..0] + r[1..] == r[1..];
      }
      FoldWithout(s, i, part);
      FoldOfPermutation(r[1..], s[..i] + s[i + 1..], part);
    }
  }

  // ---------- sorting ----------

  /** The order sort.Slice is given: by start, then by end. */
  predicate StartsBefore(r: StoredSample, s: StoredSample)
  {
    r.sample.started < s.sample.started || (r.sample.started == s.sample.started && r.sample.ended <= s.sample.ended)
  }

  ghost predicate Sorted(rows: seq<StoredSample>)
  {
    forall i, j :: 0 <= i < j < |rows| ==> StartsBefore(rows[i], rows[j])
  }

  method SortByStart(rows: seq<StoredSample>) returns (sorted: seq<StoredSample>)
    ensures Sorted(sorted) && multiset(sorted) == multiset(rows)
  {
    sorted := [];
    for i := 0 to |rows|
      invariant Sorted(sorted) && multiset(sorted) == multiset(rows[..i])
    {
      assert rows[..i + 1] == rows[..i] + [rows[i]];
      sorted := Insert(sorted, rows[i]);
    }
    assert rows[..|rows|] == rows;
  }

  lemma Spliced(sorted: seq<StoredSample>, row: StoredSample, i: nat)
    requires Sorted(sorted) && i <= |sorted|
    requires forall k :: 0 <= k < i ==> StartsBefore(sorted[k], row)
    requires forall k :: i <= k < |sorted| ==> StartsBefore(row, sorted[k])
    ensures Sorted(sorted[..i] + [row] + sorted[i..])
  {
    hide StartsBefore;
    var r := sorted[..i] + [row] + sorted[i..];
    forall j, k | 0 <= j < k < |r|
      ensures StartsBefore(r[j], r[k])
    {
      assert r[j] == if j < i then sorted[j] else if j == i then row else sorted[j - 1];
      assert r[k] == if k < i then sorted[k] else if k == i then row else sorted[k - 1];
    }
  }

  method Insert(sorted: seq<StoredSample>, row: StoredSample) returns (r: seq<StoredSample>)
    requires Sorted(sorted)
    ensures Sorted(r) && multiset(r) == multiset(sorted) + multiset{row}
  {
    var i := |sorted|;
    while i > 0 && !StartsBefore(sorted[i - 1], row)
      invariant 0 <= i <= |sorted|
      invariant forall k :: i <= k < |sorted| ==> StartsBefore(row, sorted[k])
    {
      i := i - 1;
    }
    forall k | 0 <= k < i
      ensures StartsBefore(sorted[k], row)
    {
      assert k == i - 1 || StartsBefore(sorted[k], sorted[i - 1]);
    }
    Spliced(sorted, row, i);
    r := sorted[..i] + [row] + sorted[i..];
    assert sorted == sorted[..i] + sorted[i..];
  }
}
