/** The panel's usage store: Ingest (store.go), Report.Validate (validation.go) and Maintain (retention.go)
in backend/database/aimonitor.  Tables are fields, a transaction either replaces them or leaves them. */
module Panel {
  import opened Samples

  const HOUR: int := 3_600_000_000
  const DAY: int := 86_400_000_000
  /** DedupRetention, and the age of the oldest sample that is still accepted: thirty days. */
  const HORIZON: int := 2_592_000_000_000
  const MAINTENANCE_BATCH: nat := 512

  // ---------- validation ----------

  /** A report; `wellFormed` stands for the checks on texts, quota and delivery state. */
  datatype Report = Report(version: int, observedAt: int, wellFormed: bool, samples: seq<Sample>)

  /** The tick at which the current whole second began. */
  function Unix(now: int): int
  {
    now - now % 1_000_000
  }

  lemma WholeSecond(now: int)
    ensures Unix(now) == now / 1_000_000 * 1_000_000
  {
  }

  predicate Timestamp(v: int, now: int)
  {
    Unix(now) - HORIZON <= v <= Unix(now) + 120_000_000
  }

  predicate ValidSample(s: Sample, now: int)
  {
    Timestamp(s.started, now) && Timestamp(s.ended, now) && s.ended - s.started <= HOUR && s.Sound()
  }

  predicate Validate(r: Report, now: int)
  {
    && r.version == 1 && Timestamp(r.observedAt, now) && r.wellFormed && |r.samples| <= 256
    && forall s :: s in r.samples ==> ValidSample(s, now)
  }

  /** From thirty days before the current whole second to two minutes after it. */
  ghost predicate InWindow(v: int, now: int)
  {
    var second := now / 1_000_000;
    (second - 30 * 24 * 3600) * 1_000_000 <= v <= (second + 120) * 1_000_000
  }

  ghost predicate Countable(v: int)
  {
    0 <= v <= 1_000_000_000_000
  }

  /** A sample of at most an hour, with six counters and a reset count of at most a trillion each. */
  ghost predicate Plausible(s: Sample, now: int)
  {
    && InWindow(s.started, now) && InWindow(s.ended, now) && s.started < s.ended <= s.started + 3600 * 1_000_000
    && Countable(s.calls) && Countable(s.input) && Countable(s.output) && Countable(s.cacheRead) && Countable(s.cacheWrite)
    && Countable(s.reasoning) && Countable(s.resets)
    && s.reasoning <= s.output
  }

  /** What a valid report is. */
  lemma ValidateMeans(r: Report, now: int)
    ensures Validate(r, now) <==>
              && r.version == 1 && r.wellFormed && InWindow(r.observedAt, now) && |r.samples| <= 256
              && forall s :: s in r.samples ==> Plausible(s, now)
  {
    forall v
      ensures Timestamp(v, now) <==> InWindow(v, now)
    {
      TimestampMeans(v, now);
    }
    hide Timestamp, InWindow;
  }

  lemma TimestampMeans(v: int, now: int)
    ensures Timestamp(v, now) <==> InWindow(v, now)
  {
    var second := now / 1_000_000;
    assert now == second * 1_000_000 + now % 1_000_000;
  }

  // ---------- the dedup ledger ----------

  datatype Key = Key(node: string, id: SampleId)
  type Ledger = map<Key, int>

  /** INSERT ... ON CONFLICT DO NOTHING, sample by sample. */
  function Inserted(ledger: Ledger, node: string, samples: seq<Sample>): Ledger
  {
    if samples == [] then ledger
    else
      var before, s := Inserted(ledger, node, samples[..|samples| - 1]), samples[|samples| - 1];
      if Key(node, s.id) in before then before else before[Key(node, s.id) := s.ended]
  }

  /** The samples whose insertion took effect, and which are therefore stored. */
  function Fresh(ledger: Ledger, node: string, samples: seq<Sample>): seq<Sample>
  {
    if samples == [] then []
    else
      var earlier, s := samples[..|samples| - 1], samples[|samples| - 1];
      Fresh(ledger, node, earlier) + if Key(node, s.id) in Inserted(ledger, node, earlier) then [] else [s]
  }

  // ---------- rollups ----------

  /** What an hourly rollup is filed under. */
  datatype RollupKey = RollupKey(node: string, hour: int, model: string, provider: string, billingMode: string, task: string, priceId: nat)
  datatype Rollup = Rollup(key: RollupKey, totals: Totals)

  function HourOf(t: int): int
  {
    t - t % 3_600_000_000
  }

  function KeyOf(row: StoredSample): RollupKey
  {
    var s := row.sample;
    RollupKey(row.node, HourOf(s.ended), s.model, s.provider, s.billingMode, s.task, row.priceId)
  }

  /** A dimension filter: any choice of nodes, hours, models, providers, billing modes, tasks and prices. */
  type Filter = RollupKey -> bool

  function RowPart(row: StoredSample, f: Filter): Totals
  {
    if f(KeyOf(row)) then OfRow(row) else ZERO_TOTALS
  }

  function RowSum(rows: seq<StoredSample>, f: Filter): Totals
  {
    Fold(rows, (row: StoredSample) => RowPart(row, f))
  }

  function RollupPart(r: Rollup, f: Filter): Totals
  {
    if f(r.key) then r.totals else ZERO_TOTALS
  }

  function RollupSum(rollups: seq<Rollup>, f: Filter): Totals
  {
    Fold(rollups, (r: Rollup) => RollupPart(r, f))
  }

  /** One rollup per key, and every rollup's nine counters are consistent and fit a JSON number. */
  ghost predicate GoodRollups(rollups: seq<Rollup>)
  {
    && (forall i, j :: 0 <= i < j < |rollups| ==> rollups[i].key != rollups[j].key)
    && (forall r :: r in rollups ==> Consistent(r.totals) && InRange(r.totals))
  }

  method FindRollup(rollups: seq<Rollup>, key: RollupKey) returns (i: nat)
    ensures i <= |rollups|
    ensures i < |rollups| ==> rollups[i].key == key
    ensures i == |rollups| ==> forall r :: r in rollups ==> r.key != key
  {
    i := 0;
    while i < |rollups|
      invariant i <= |rollups|
      invariant forall k :: 0 <= k < i ==> rollups[k].key != key
    {
      if rollups[i].key == key {
        return;
      }
      i := i + 1;
    }
  }

  datatype Folding = Overflow | Folded(rollups: seq<Rollup>)

  lemma ReplaceRollup(rollups: seq<Rollup>, i: nat, raised: Rollup, extra: Totals, f: Filter)
    requires i < |rollups| && RollupPart(raised, f) == Add(RollupPart(rollups[i], f), extra)
    ensures RollupSum(rollups[i := raised], f) == Add(RollupSum(rollups, f), extra)
  {
    FoldReplace(rollups, i, raised, (r: Rollup) => RollupPart(r, f), extra);
  }

  lemma RaisedPart(before: Rollup, more: Totals, f: Filter)
    ensures RollupPart(Rollup(before.key, Add(before.totals, more)), f)
         == Add(RollupPart(before, f), if f(before.key) then more else ZERO_TOTALS)
  {
  }

  lemma AppendRollup(rollups: seq<Rollup>, key: RollupKey, more: Totals, f: Filter)
    ensures RollupSum(rollups + [Rollup(key, Add(ZERO_TOTALS, more))], f)
         == Add(RollupSum(rollups, f), if f(key) then more else ZERO_TOTALS)
  {
    AddLaws(more, ZERO_TOTALS, ZERO_TOTALS);
    assert (rollups + [Rollup(key, Add(ZERO_TOTALS, more))])[..|rollups|] == rollups;
  }

  lemma RollupSumMore(rollups: seq<Rollup>, r: Rollup, f: Filter)
    ensures RollupSum(rollups + [r], f) == Add(RollupSum(rollups, f), RollupPart(r, f))
  {
    assert (rollups + [r])[..|rollups|] == rollups;
  }

  /** The filter that asks for one key. */
  function Only(key: RollupKey): Filter
  {
    (k: RollupKey) => k == key
  }

  /** What the rollups hold under one key. */
  ghost function TotalsAt(rollups: seq<Rollup>, key: RollupKey): Totals
  {
    RollupSum(rollups, Only(key))
  }

  lemma TotalsAtMore(rollups: seq<Rollup>, r: Rollup, key: RollupKey)
    ensures TotalsAt([], key) == ZERO_TOTALS
    ensures TotalsAt(rollups + [r], key) == if r.key == key then Add(TotalsAt(rollups, key), r.totals) else TotalsAt(rollups, key)
  {
    RollupSumMore(rollups, r, Only(key));
    AddLaws(TotalsAt(rollups, key), ZERO_TOTALS, ZERO_TOTALS);
  }

  lemma {:induction false} KeyAbsent(rollups: seq<Rollup>, key: RollupKey)
    requires forall r :: r in rollups ==> r.key != key
    ensures TotalsAt(rollups, key) == ZERO_TOTALS
  {
    hide *;
    if rollups == [] {
      TotalsAtMore([], Rollup(key, ZERO_TOTALS), key);
    } else {
      var earlier := rollups[..|rollups| - 1];
      KeyAbsent(earlier, key);
      TotalsAtMore(earlier, rollups[|rollups| - 1], key);
      assert rollups == earlier + [rollups[|rollups| - 1]];
    }
  }

  lemma {:induction false} KeyHeld(rollups: seq<Rollup>, i: nat)
    requires i < |rollups| && forall j, k :: 0 <= j < k < |rollups| ==> rollups[j].key != rollups[k].key
    ensures TotalsAt(rollups, rollups[i].key) == rollups[i].totals
  {
    hide *;
    var earlier, last := rollups[..|rollups| - 1], rollups[|rollups| - 1];
    assert rollups == earlier + [last];
    TotalsAtMore(earlier, last, rollups[i].key);
    if i == |rollups| - 1 {
      KeyAbsent(earlier, last.key);
      AddLaws(last.totals, ZERO_TOTALS, ZERO_TOTALS);
    } else {
      KeyHeld(earlier, i);
    }
  }

  lemma NothingIsConsistent()
    ensures Consistent(ZERO_TOTALS) && InRange(ZERO_TOTALS)
  {
  }

  lemma TotalsAreGood(rollups: seq<Rollup>, key: RollupKey)
    requires GoodRollups(rollups)
    ensures Consistent(TotalsAt(rollups, key)) && InRange(TotalsAt(rollups, key))
  {
    hide TotalsAt, Consistent, InRange;
    NothingIsConsistent();
    if i :| 0 <= i < |rollups| && rollups[i].key == key {
      KeyHeld(rollups, i);
    } else {
      KeyAbsent(rollups, key);
    }
  }

  /** The rollups count `more` under `key` in addition. */
  ghost predicate Raised(before: seq<Rollup>, after: seq<Rollup>, key: RollupKey, more: Totals)
  {
    forall f: Filter :: RollupSum(after, f) == Add(RollupSum(before, f), if f(key) then more else ZERO_TOTALS)
  }

  lemma RaiseOne(rollups: seq<Rollup>, i: nat, more: Totals)
    requires GoodRollups(rollups) && i < |rollups| && Consistent(more) && SafeAdd(rollups[i].totals, more)
    ensures var after := rollups[i := Rollup(rollups[i].key, Add(rollups[i].totals, more))];
            GoodRollups(after) && Raised(rollups, after, rollups[i].key, more)
  {
    hide RollupSum, RollupPart, Add, SafeAdd, Consistent, InRange;
    assert rollups[i] in rollups;
    FourChecksGuardNine(rollups[i].totals, more);
    var raised := Rollup(rollups[i].key, Add(rollups[i].totals, more));
    forall f: Filter
      ensures RollupSum(rollups[i := raised], f) == Add(RollupSum(rollups, f), if f(raised.key) then more else ZERO_TOTALS)
    {
      RaisedPart(rollups[i], more, f);
      ReplaceRollup(rollups, i, raised, if f(raised.key) then more else ZERO_TOTALS, f);
    }
  }

  lemma AppendOne(rollups: seq<Rollup>, key: RollupKey, more: Totals)
    requires GoodRollups(rollups) && (forall r :: r in rollups ==> r.key != key) && Consistent(more) && SafeAdd(ZERO_TOTALS, more)
    ensures var after := rollups + [Rollup(key, Add(ZERO_TOTALS, more))];
            GoodRollups(after) && Raised(rollups, after, key, more)
  {
    hide RollupSum, RollupPart, Add, SafeAdd, Consistent, InRange;
    NothingIsConsistent();
    FourChecksGuardNine(ZERO_TOTALS, more);
    forall f: Filter
      ensures RollupSum(rollups + [Rollup(key, Add(ZERO_TOTALS, more))], f) == Add(RollupSum(rollups, f), if f(key) then more else ZERO_TOTALS)
    {
      AppendRollup(rollups, key, more, f);
    }
  }

  /** Add to the rollup of a key, creating it when there is none, or refuse when a guarded counter of that rollup
      would leave the range. */
  method AddToRollup(rollups: seq<Rollup>, key: RollupKey, more: Totals) returns (r: Folding)
    requires GoodRollups(rollups) && Consistent(more)
    ensures r.Overflow? <==> !SafeAdd(TotalsAt(rollups, key), more)
    ensures r.Folded? ==> GoodRollups(r.rollups) && Raised(rollups, r.rollups, key, more) && |r.rollups| <= |rollups| + 1
  {
    hide TotalsAt, Add, SafeAdd, Consistent, Raised;
    var i := FindRollup(rollups, key);
    var totals := if i < |rollups| then rollups[i].totals else ZERO_TOTALS;
    if i < |rollups| {
      KeyHeld(rollups, i);
    } else {
      KeyAbsent(rollups, key);
    }
    if !SafeAdd(totals, more) {
      return Overflow;
    }
    if i < |rollups| {
      RaiseOne(rollups, i, more);
      r := Folded(rollups[i := Rollup(rollups[i].key, Add(totals, more))]);
    } else {
      AppendOne(rollups, key, more);
      r := Folded(rollups + [Rollup(key, Add(totals, more))]);
    }
  }

  // ---------- retiring rows ----------

  /** `row` comes before `other` in ORDER BY ended_at, id; the ids follow the order of the table. */
  predicate RetiresBefore(rows: seq<StoredSample>, i: nat, j: nat)
    requires i < |rows| && j < |rows|
  {
    rows[i].sample.ended < rows[j].sample.ended || (rows[i].sample.ended == rows[j].sample.ended && i <= j)
  }

  predicate Retired(row: StoredSample, cutoff: int)
  {
    row.sample.ended < cutoff
  }

  /** The row that retires next, or the length of the table. */
  method NextToRetire(rows: seq<StoredSample>, cutoff: int) returns (next: nat)
    ensures next <= |rows|
    ensures next == |rows| <==> forall row :: row in rows ==> !Retired(row, cutoff)
    ensures next < |rows| ==> Retired(rows[next], cutoff) && forall i :: 0 <= i < |rows| ==> RetiresBefore(rows, next, i)
  {
    next := |rows|;
    for i := 0 to |rows|
      invariant next == |rows| ==> forall k :: 0 <= k < i ==> !Retired(rows[k], cutoff)
      invariant next <= |rows|
      invariant next < |rows| ==> next < i && Retired(rows[next], cutoff)
      invariant next < |rows| ==> forall k :: 0 <= k < i ==> rows[next].sample.ended <= rows[k].sample.ended
      invariant next < |rows| ==> forall k :: 0 <= k < next ==> rows[next].sample.ended < rows[k].sample.ended
    {
      if Retired(rows[i], cutoff) && (next == |rows| || rows[i].sample.ended < rows[next].sample.ended) {
        next := i;
      }
    }
  }

  /** The row at `next` is the first to retire. */
  predicate IsNext(rows: seq<StoredSample>, cutoff: int, next: nat)
  {
    next < |rows| && Retired(rows[next], cutoff) && forall i :: 0 <= i < |rows| ==> RetiresBefore(rows, next, i)
  }

  /** The first `limit` rows in the order in which rows retire. */
  ghost function Oldest(rows: seq<StoredSample>, cutoff: int, limit: nat): seq<StoredSample>
    decreases limit
  {
    if limit > 0 && exists next: nat :: IsNext(rows, cutoff, next) then
      var next: nat :| IsNext(rows, cutoff, next);
      [rows[next]] + Oldest(rows[..next] + rows[next + 1..], cutoff, limit - 1)
    else []
  }

  lemma OldestStep(rows: seq<StoredSample>, cutoff: int, limit: nat, next: nat)
    requires limit > 0 && IsNext(rows, cutoff, next)
    ensures Oldest(rows, cutoff, limit) == [rows[next]] + Oldest(rows[..next] + rows[next + 1..], cutoff, limit - 1)
  {
    forall other: nat | IsNext(rows, cutoff, other)
      ensures other == next
    {
      assert RetiresBefore(rows, next, other) && RetiresBefore(rows, other, next);
    }
  }

  lemma OldestEnds(rows: seq<StoredSample>, cutoff: int, limit: nat)
    requires limit == 0 || forall row :: row in rows ==> !Retired(row, cutoff)
    ensures Oldest(rows, cutoff, limit) == []
  {
  }

  /** `batch` was taken out of `rows` in their order, and `rest` is what is left of them. */
  ghost predicate Taken(rows: seq<StoredSample>, batch: seq<StoredSample>, rest: seq<StoredSample>, cutoff: int)
  {
    && multiset(rows) == multiset(batch) + multiset(rest)
    && |batch| <= MAINTENANCE_BATCH
    && Oldest(rows, cutoff, MAINTENANCE_BATCH) == batch + Oldest(rest, cutoff, MAINTENANCE_BATCH - |batch|)
    && (forall row :: row in batch ==> Retired(row, cutoff))
    && (forall b, r :: b in batch && r in rest ==> b.sample.ended <= r.sample.ended)
  }

  lemma NextIsOldest(rows: seq<StoredSample>, cutoff: int, next: nat, row: StoredSample)
    requires IsNext(rows, cutoff, next) && row in rows
    ensures rows[next].sample.ended <= row.sample.ended
  {
    var i :| 0 <= i < |rows| && rows[i] == row;
    assert RetiresBefore(rows, next, i);
  }

  lemma TakeNext(rows: seq<StoredSample>, batch: seq<StoredSample>, rest: seq<StoredSample>, cutoff: int, next: nat)
    requires Taken(rows, batch, rest, cutoff) && |batch| < MAINTENANCE_BATCH && IsNext(rest, cutoff, next)
    ensures Taken(rows, batch + [rest[next]], rest[..next] + rest[next + 1..], cutoff)
  {
    hide Oldest, RetiresBefore;
    var left, row := rest[..next] + rest[next + 1..], rest[next];
    Without(rest, next);
    OldestStep(rest, cutoff, MAINTENANCE_BATCH - |batch|, next);
    assert batch + ([row] + Oldest(left, cutoff, MAINTENANCE_BATCH - |batch| - 1)) == (batch + [row]) + Oldest(left, cutoff, MAINTENANCE_BATCH - |batch| - 1);
    forall b, r | b in batch + [row] && r in left
      ensures b.sample.ended <= r.sample.ended
    {
      assert r in rest && row in rest;
      NextIsOldest(rest, cutoff, next, r);
    }
  }

  /** The batch a maintenance run retires, oldest first, and the rows it leaves. */
  method TakeBatch(rows: seq<StoredSample>, cutoff: int) returns (batch: seq<StoredSample>, rest: seq<StoredSample>)
    ensures batch == Oldest(rows, cutoff, MAINTENANCE_BATCH)
    ensures multiset(rows) == multiset(batch) + multiset(rest) && |batch| <= MAINTENANCE_BATCH
    ensures forall row :: row in batch ==> row.sample.ended < cutoff
    ensures |batch| < MAINTENANCE_BATCH ==> forall row :: row in rest ==> row.sample.ended >= cutoff
    ensures forall b, r :: b in batch && r in rest ==> b.sample.ended <= r.sample.ended
    ensures forall f: Filter :: RowSum(rows, f) == Add(RowSum(batch, f), RowSum(rest, f))
  {
    batch, rest := [], rows;
    hide Oldest, RetiresBefore, RowSum, Add;
    var done := false;
    while |batch| < MAINTENANCE_BATCH && !done
      invariant Taken(rows, batch, rest, cutoff)
      invariant done ==> forall row :: row in rest ==> !Retired(row, cutoff)
      decreases |rest|, !done
    {
      hide Taken;
      var next := NextToRetire(rest, cutoff);
      if next == |rest| {
        done := true;
      } else {
        TakeNext(rows, batch, rest, cutoff, next);
        batch, rest := batch + [rest[next]], rest[..next] + rest[next + 1..];
      }
    }
    OldestEnds(rest, cutoff, MAINTENANCE_BATCH - |batch|);
    forall f: Filter
      ensures RowSum(rows, f) == Add(RowSum(batch, f), RowSum(rest, f))
    {
      SplitSum(rows, batch, rest, f);
    }
  }

  lemma SplitSum(rows: seq<StoredSample>, batch: seq<StoredSample>, rest: seq<StoredSample>, f: Filter)
    requires multiset(rows) == multiset(batch) + multiset(rest)
    ensures RowSum(rows, f) == Add(RowSum(batch, f), RowSum(rest, f))
  {
    var part := (row: StoredSample) => RowPart(row, f);
    assert multiset(rows) == multiset(batch + rest);
    FoldOfPermutation(rows, batch + rest, part);
    FoldOfConcat(batch, rest, part);
  }

  /** The filter asks only for hours that lie inside the retention period in full. */
  ghost predicate AsksSince(f: Filter, cutoff: int)
  {
    forall k :: f(k) ==> k.hour >= cutoff
  }

  /** The rows that are still inside retention; the others retire uncounted. */
  function Kept(rows: seq<StoredSample>, cutoff: int): seq<StoredSample>
  {
    if rows == [] then []
    else
      var row := rows[|rows| - 1];
      Kept(rows[..|rows| - 1], cutoff) + if row.sample.ended >= cutoff then [row] else []
  }

  lemma KeptMore(rows: seq<StoredSample>, i: nat, cutoff: int, f: Filter)
    requires i < |rows|
    ensures RowSum(Kept(rows[..i + 1], cutoff), f)
         == Add(RowSum(Kept(rows[..i], cutoff), f), if rows[i].sample.ended >= cutoff then RowPart(rows[i], f) else ZERO_TOTALS)
  {
    hide Fold, Add, RowPart;
    var row := rows[i];
    assert rows[..i + 1][..i] == rows[..i];
    var before := Kept(rows[..i], cutoff);
    assert Kept(rows[..i + 1], cutoff) == if row.sample.ended >= cutoff then before + [row] else before;
    FoldOfMore(before, row, (x: StoredSample) => RowPart(x, f));
    AddLaws(RowSum(Kept(rows[..i], cutoff), f), ZERO_TOTALS, ZERO_TOTALS);
  }

  lemma OutOfRetention(row: StoredSample, f: Filter, cutoff: int)
    requires AsksSince(f, cutoff) && row.sample.ended < cutoff
    ensures RowPart(row, f) == ZERO_TOTALS
  {
    assert KeyOf(row).hour <= row.sample.ended;
  }

  /** A filter that asks only for hours inside retention does not notice the rows that retire uncounted. */
  lemma {:induction false} KeptCounts(rows: seq<StoredSample>, f: Filter, cutoff: int)
    requires AsksSince(f, cutoff)
    ensures RowSum(Kept(rows, cutoff), f) == RowSum(rows, f)
  {
    hide RowPart, Add, AsksSince;
    if rows != [] {
      var last := |rows| - 1;
      KeptCounts(rows[..last], f, cutoff);
      KeptMore(rows, last, cutoff, f);
      if rows[last].sample.ended < cutoff {
        OutOfRetention(rows[last], f, cutoff);
      }
      assert rows[..last + 1] == rows;
    }
  }

  /** None of the four guarded counters has left the range. */
  predicate Fits(t: Totals)
  {
    t.calls <= MAX_SAFE_INTEGER && t.total <= MAX_SAFE_INTEGER && t.unpriced <= MAX_SAFE_INTEGER && t.priced <= MAX_SAFE_INTEGER
  }

  /** Under some key the rollups and the batch together are more than a rollup can hold. */
  ghost predicate Overflows(rollups: seq<Rollup>, batch: seq<StoredSample>, cutoff: int)
  {
    exists key :: !Fits(Together(rollups, batch, cutoff, key))
  }

  ghost function Together(rollups: seq<Rollup>, batch: seq<StoredSample>, cutoff: int, key: RollupKey): Totals
  {
    Add(TotalsAt(rollups, key), RowSum(Kept(batch, cutoff), Only(key)))
  }

  lemma MoreDoesNotFit(a: Totals, b: Totals, c: Totals)
    requires !Fits(Add(a, b)) && Consistent(c)
    ensures !Fits(Add(a, Add(b, c)))
  {
  }

  /** What does not fit after a part of the batch does not fit after all of it. */
  lemma {:induction false} StillDoesNotFit(rollups: seq<Rollup>, batch: seq<StoredSample>, cutoff: int, key: RollupKey, i: nat)
    requires i <= |batch| && (forall row :: row in batch ==> row.sample.Sound())
    requires !Fits(Together(rollups, batch[..i], cutoff, key))
    ensures Overflows(rollups, batch, cutoff)
    decreases |batch| - i
  {
    hide RowSum, Kept, Fits, TotalsAt, Add, Consistent;
    if i == |batch| {
      assert batch[..i] == batch;
    } else {
      KeptMore(batch, i, cutoff, Only(key));
      SoundRowIsConsistent(batch[i]);
      NothingIsConsistent();
      MoreDoesNotFit(TotalsAt(rollups, key), RowSum(Kept(batch[..i], cutoff), Only(key)),
                     if batch[i].sample.ended >= cutoff then RowPart(batch[i], Only(key)) else ZERO_TOTALS);
      StillDoesNotFit(rollups, batch, cutoff, key, i + 1);
    }
  }

  /** Good rollups that refuse a row refuse it because its counters would not fit. */
  lemma RefusedDoesNotFit(held: Totals, more: Totals)
    requires Consistent(held) && InRange(held) && Consistent(more) && InRange(more)
    ensures SafeAdd(held, more) <==> Fits(Add(held, more))
  {
  }

  /** A row that its rollup refuses makes the batch overflow. */
  lemma RefusalOverflows(rollups: seq<Rollup>, sofar: seq<Rollup>, batch: seq<StoredSample>, cutoff: int, i: nat)
    requires i < |batch| && (forall row :: row in batch ==> row.sample.Sound()) && GoodRollups(sofar)
    requires FoldedInto(rollups, sofar, batch[..i], cutoff)
    requires batch[i].sample.ended >= cutoff && !SafeAdd(TotalsAt(sofar, KeyOf(batch[i])), OfRow(batch[i]))
    ensures Overflows(rollups, batch, cutoff)
  {
    hide RowSum, RollupSum, Kept, Fits, Add, SafeAdd, OfRow, Consistent, InRange, Overflows, KeyOf, GoodRollups;
    var row, key := batch[i], KeyOf(batch[i]);
    var held, part := TotalsAt(rollups, key), RowSum(Kept(batch[..i], cutoff), Only(key));
    assert TotalsAt(sofar, key) == Add(held, part);
    TotalsAreGood(sofar, key);
    SoundRowIsConsistent(row);
    RefusedDoesNotFit(TotalsAt(sofar, key), OfRow(row));
    AddLaws(held, part, OfRow(row));
    KeptMore(batch, i, cutoff, Only(key));
    assert RowPart(row, Only(key)) == OfRow(row);
    StillDoesNotFit(rollups, batch, cutoff, key, i + 1);
  }

  /** A batch that went in did fit. */
  lemma FoldedFits(rollups: seq<Rollup>, after: seq<Rollup>, batch: seq<StoredSample>, cutoff: int)
    requires GoodRollups(after) && FoldedInto(rollups, after, batch, cutoff)
    ensures !Overflows(rollups, batch, cutoff)
  {
    hide RowSum, RollupSum, Kept, Add, GoodRollups;
    forall key
      ensures Fits(Together(rollups, batch, cutoff, key))
    {
      TotalsAreGood(after, key);
      assert TotalsAt(after, key) == Together(rollups, batch, cutoff, key);
    }
  }

  /** The rollups count the batch in addition, its rows outside retention excepted. */
  ghost predicate FoldedInto(before: seq<Rollup>, after: seq<Rollup>, batch: seq<StoredSample>, cutoff: int)
  {
    forall f: Filter :: RollupSum(after, f) == Add(RollupSum(before, f), RowSum(Kept(batch, cutoff), f))
  }

  lemma FoldedNext(rollups: seq<Rollup>, before: seq<Rollup>, after: seq<Rollup>, batch: seq<StoredSample>, cutoff: int, i: nat)
    requires i < |batch| && FoldedInto(rollups, before, batch[..i], cutoff)
    requires if batch[i].sample.ended >= cutoff then Raised(before, after, KeyOf(batch[i]), OfRow(batch[i])) else after == before
    ensures FoldedInto(rollups, after, batch[..i + 1], cutoff)
  {
    hide RowSum, RollupSum, Kept, Add, KeyOf, OfRow;
    forall f: Filter
      ensures RollupSum(after, f) == Add(RollupSum(rollups, f), RowSum(Kept(batch[..i + 1], cutoff), f))
    {
      var more := if batch[i].sample.ended >= cutoff then RowPart(batch[i], f) else ZERO_TOTALS;
      KeptMore(batch, i, cutoff, f);
      AddLaws(RollupSum(rollups, f), RowSum(Kept(batch[..i], cutoff), f), more);
      AddLaws(RollupSum(before, f), ZERO_TOTALS, ZERO_TOTALS);
    }
  }

  /** Fold a batch into the rollups, skipping the rows that are out of retention altogether. */
  method FoldBatch(rollups: seq<Rollup>, batch: seq<StoredSample>, cutoff: int) returns (r: Folding)
    requires GoodRollups(rollups) && forall row :: row in batch ==> row.sample.Sound()
    ensures r.Overflow? <==> Overflows(rollups, batch, cutoff)
    ensures r.Folded? ==> GoodRollups(r.rollups) && |r.rollups| <= |rollups| + |batch| && FoldedInto(rollups, r.rollups, batch, cutoff)
  {
    r := Folded(rollups);
    forall f: Filter {
      AddLaws(RollupSum(rollups, f), ZERO_TOTALS, ZERO_TOTALS);
    }
    assert FoldedInto(rollups, rollups, batch[..0], cutoff);
    hide FoldedInto, GoodRollups, Overflows, Raised, OfRow, KeyOf, TotalsAt;
    for i := 0 to |batch|
      invariant r.Folded? && GoodRollups(r.rollups) && |r.rollups| <= |rollups| + i
      invariant FoldedInto(rollups, r.rollups, batch[..i], cutoff)
    {
      var row, before := batch[i], r.rollups;
      if row.sample.ended >= cutoff {
        SoundRowIsConsistent(row);
        r := AddToRollup(before, KeyOf(row), OfRow(row));
        if r.Overflow? {
          RefusalOverflows(rollups, before, batch, cutoff, i);
          return;
        }
      }
      FoldedNext(rollups, before, r.rollups, batch, cutoff, i);
    }
    assert batch[..|batch|] == batch;
    FoldedFits(rollups, r.rollups, batch, cutoff);
  }

  // ---------- expiry ----------

  predicate Expired(r: Rollup, cutoff: int)
  {
    r.key.hour + HOUR < cutoff
  }

  lemma ExpiredPart(r: Rollup, f: Filter, cutoff: int)
    requires AsksSince(f, cutoff) && Expired(r, cutoff)
    ensures RollupPart(r, f) == ZERO_TOTALS
  {
  }

  method ExpireRollups(rollups: seq<Rollup>, cutoff: int) returns (kept: seq<Rollup>)
    requires GoodRollups(rollups)
    ensures GoodRollups(kept)
    ensures forall r :: r in kept ==> r in rollups
    ensures forall r :: r in rollups && r !in kept ==> r.key.hour + 3600 * 1_000_000 < cutoff
    ensures |rollups| - |kept| <= MAINTENANCE_BATCH
    ensures |rollups| - |kept| < MAINTENANCE_BATCH ==> forall r :: r in kept ==> r.key.hour + 3600 * 1_000_000 >= cutoff
    ensures forall f: Filter :: AsksSince(f, cutoff) ==> RollupSum(kept, f) == RollupSum(rollups, f)
  {
    kept := [];
    hide RollupSum, RollupPart, Add, AsksSince;
    for i := 0 to |rollups|
      invariant i - MAINTENANCE_BATCH <= |kept| <= i
      invariant i - |kept| < MAINTENANCE_BATCH ==> forall r :: r in kept ==> !Expired(r, cutoff)
      invariant forall r :: r in kept ==> r in rollups[..i]
      invariant forall r :: r in rollups[..i] && r !in kept ==> Expired(r, cutoff)
      invariant forall j, k :: 0 <= j < k < |kept| ==> kept[j].key != kept[k].key
      invariant forall f: Filter :: AsksSince(f, cutoff) ==> RollupSum(kept, f) == RollupSum(rollups[..i], f)
    {
      var r := rollups[i];
      ghost var before := kept;
      assert rollups[..i + 1] == rollups[..i] + [r];
      assert forall x :: x in rollups[..i] ==> x.key != r.key;
      if !Expired(r, cutoff) || i - |kept| >= MAINTENANCE_BATCH {
        kept := kept + [r];
      }
      forall f: Filter | AsksSince(f, cutoff)
        ensures RollupSum(kept, f) == RollupSum(rollups[..i + 1], f)
      {
        RollupSumMore(rollups[..i], r, f);
        RollupSumMore(before, r, f);
        AddLaws(RollupSum(before, f), ZERO_TOTALS, ZERO_TOTALS);
        if kept == before {
          ExpiredPart(r, f, cutoff);
        }
      }
    }
    assert rollups[..|rollups|] == rollups;
  }

  /** Delete at most a batch of ledger rows that are past the horizon. */
  method ExpireLedger(ledger: Ledger, horizon: int) returns (kept: Ledger)
    ensures forall k :: k in kept ==> k in ledger && kept[k] == ledger[k]
    ensures forall k :: k in ledger && k !in kept ==> ledger[k] < horizon
    ensures |ledger| - |kept| <= MAINTENANCE_BATCH
    ensures |ledger| - |kept| < MAINTENANCE_BATCH ==> forall k :: k in kept ==> kept[k] >= horizon
  {
    kept := ledger;
    var todo := ledger.Keys;
    var deleted := 0;
    while todo != {} && deleted < MAINTENANCE_BATCH
      invariant todo <= kept.Keys
      invariant forall k :: k in kept ==> k in ledger && kept[k] == ledger[k]
      invariant forall k :: k in ledger && k !in kept ==> ledger[k] < horizon
      invariant |ledger| == |kept| + deleted && deleted <= MAINTENANCE_BATCH
      invariant forall k :: k in kept && k !in todo ==> kept[k] >= horizon
    {
      var k :| k in todo;
      if ledger[k] < horizon {
        assert (kept - {k}).Keys == kept.Keys - {k};
        kept, deleted := kept - {k}, deleted + 1;
      }
      todo := todo - {k};
    }
  }

  // ---------- the store ----------

  /** Something that was stored: the sample as its sender identifies it, and when it ended. */
  datatype Entry = Entry(key: Key, ended: int)

  datatype Price = Price(id: nat, priced: bool)
  datatype Accepted = Refused | Accepted(ids: seq<SampleId>)

  function RowsOf(node: string, samples: seq<Sample>, price: Sample -> Price): seq<StoredSample>
  {
    seq(|samples|, i requires 0 <= i < |samples| => StoredSample(node, samples[i], price(samples[i]).id, price(samples[i]).priced))
  }

  function Ids(samples: seq<Sample>): seq<SampleId>
  {
    seq(|samples|, i requires 0 <= i < |samples| => samples[i].id)
  }

  function Entries(node: string, samples: seq<Sample>): seq<Entry>
  {
    seq(|samples|, i requires 0 <= i < |samples| => Entry(Key(node, samples[i].id), samples[i].ended))
  }

  /** What was stored again under the same key ended later than what was stored before. */
  ghost predicate Successive(history: seq<Entry>)
  {
    forall i, j :: 0 <= i < j < |history| && history[i].key == history[j].key ==> history[i].ended < history[j].ended
  }

  /** Whatever was stored and could still be accepted is in the ledger. */
  ghost predicate Protected(history: seq<Entry>, ledger: Ledger, clock: int)
  {
    forall e :: e in history ==> Guarded(e, ledger, clock)
  }

  ghost predicate Guarded(e: Entry, ledger: Ledger, clock: int)
  {
    e.ended < Unix(clock) - HORIZON || (e.key in ledger && ledger[e.key] == e.ended)
  }

  lemma {:induction false} InsertedKeeps(ledger: Ledger, node: string, samples: seq<Sample>)
    ensures forall k :: k in ledger ==> k in Inserted(ledger, node, samples) && Inserted(ledger, node, samples)[k] == ledger[k]
    ensures forall s :: s in samples ==> Key(node, s.id) in Inserted(ledger, node, samples)
  {
    if samples != [] {
      InsertedKeeps(ledger, node, samples[..|samples| - 1]);
      assert samples == samples[..|samples| - 1] + [samples[|samples| - 1]];
    }
  }

  ghost predicate Entered(ledger: Ledger, node: string, s: Sample)
  {
    Key(node, s.id) in ledger && ledger[Key(node, s.id)] == s.ended
  }

  /** What is stored was not in the ledger and is now. */
  lemma {:induction false} FreshIsNew(ledger: Ledger, node: string, samples: seq<Sample>)
    ensures forall s :: s in Fresh(ledger, node, samples) ==>
              s in samples && Key(node, s.id) !in ledger && Entered(Inserted(ledger, node, samples), node, s)
  {
    if samples != [] {
      var earlier, s := samples[..|samples| - 1], samples[|samples| - 1];
      FreshIsNew(ledger, node, earlier);
      InsertedKeeps(ledger, node, earlier);
      assert samples == earlier + [s];
    }
  }

  ghost predicate IdsDiffer(samples: seq<Sample>)
  {
    forall i, j :: 0 <= i < j < |samples| ==> samples[i].id != samples[j].id
  }

  lemma {:induction false} FreshIdsDiffer(ledger: Ledger, node: string, samples: seq<Sample>)
    ensures IdsDiffer(Fresh(ledger, node, samples))
  {
    if samples != [] {
      var earlier, s := samples[..|samples| - 1], samples[|samples| - 1];
      FreshIdsDiffer(ledger, node, earlier);
      FreshIsNew(ledger, node, earlier);
      var before := Fresh(ledger, node, earlier);
      if Key(node, s.id) !in Inserted(ledger, node, earlier) {
        forall i | 0 <= i < |before|
          ensures before[i].id != s.id
        {
          assert before[i] in before;
        }
        assert Fresh(ledger, node, samples) == before + [s];
      }
    }
  }

  /** A sample that is stored now was not stored before, unless as an older one whose id is used again. */
  lemma NothingStoredAgain(history: seq<Entry>, ledger: Ledger, clock: int, node: string, samples: seq<Sample>, now: int)
    requires Successive(history) && Protected(history, ledger, clock) && clock <= now
    requires forall s :: s in samples ==> Unix(now) - HORIZON <= s.ended
    ensures Successive(history + Entries(node, Fresh(ledger, node, samples)))
  {
    var stored := Fresh(ledger, node, samples);
    var entries := Entries(node, stored);
    FreshIsNew(ledger, node, samples);
    FreshIdsDiffer(ledger, node, samples);
    forall i, j | 0 <= i < |history| && 0 <= j < |entries| && history[i].key == entries[j].key
      ensures history[i].ended < entries[j].ended
    {
      assert history[i] in history && stored[j] in stored;
      assert Unix(clock) <= Unix(now);
    }
    var all := history + entries;
    assert forall i :: 0 <= i < |all| ==> all[i] == if i < |history| then history[i] else entries[i - |history|];
  }

  /** What could still be accepted stays in the ledger. */
  lemma StillProtected(history: seq<Entry>, ledger: Ledger, clock: int, node: string, samples: seq<Sample>, now: int)
    requires Protected(history, ledger, clock) && clock <= now
    ensures Protected(history + Entries(node, Fresh(ledger, node, samples)), Inserted(ledger, node, samples), now)
  {
    var stored, after := Fresh(ledger, node, samples), Inserted(ledger, node, samples);
    forall e | e in history
      ensures Guarded(e, after, now)
    {
      assert Guarded(e, ledger, clock);
      InsertedKeeps(ledger, node, samples);
      assert Unix(clock) <= Unix(now);
    }
    FreshIsNew(ledger, node, samples);
    forall i | 0 <= i < |stored|
      ensures Guarded(Entries(node, stored)[i], after, now)
    {
      assert Entered(after, node, stored[i]);
    }
  }

  /** Every ledger row stands for something that was stored. */
  ghost predicate Backed(ledger: Ledger, history: seq<Entry>)
  {
    forall k :: k in ledger ==> Entry(k, ledger[k]) in history
  }

  lemma {:induction false} StillBacked(ledger: Ledger, history: seq<Entry>, node: string, samples: seq<Sample>)
    requires Backed(ledger, history)
    ensures Backed(Inserted(ledger, node, samples), history + Entries(node, Fresh(ledger, node, samples)))
  {
    if samples != [] {
      var earlier, s := samples[..|samples| - 1], samples[|samples| - 1];
      StillBacked(ledger, history, node, earlier);
      var before := Entries(node, Fresh(ledger, node, earlier));
      var after := Entries(node, Fresh(ledger, node, samples));
      if Key(node, s.id) !in Inserted(ledger, node, earlier) {
        assert after == before + [Entry(Key(node, s.id), s.ended)];
        assert history + after == (history + before) + [Entry(Key(node, s.id), s.ended)];
      } else {
        assert after == before;
      }
    }
  }

  /** The rows of the intake are the entries of the history, one for one. */
  ghost predicate Recorded(history: seq<Entry>, intake: seq<StoredSample>)
  {
    && |history| == |intake|
    && forall i :: 0 <= i < |history| ==> history[i] == Entry(Key(intake[i].node, intake[i].sample.id), intake[i].sample.ended)
  }

  lemma RecordedMore(history: seq<Entry>, intake: seq<StoredSample>, node: string, samples: seq<Sample>, price: Sample -> Price)
    requires Recorded(history, intake)
    ensures Recorded(history + Entries(node, samples), intake + RowsOf(node, samples, price))
  {
  }

  lemma RowsAreSound(details: seq<StoredSample>, node: string, samples: seq<Sample>, price: Sample -> Price)
    requires forall row :: row in details ==> row.sample.Sound()
    requires forall s :: s in samples ==> s.Sound()
    ensures forall row :: row in details + RowsOf(node, samples, price) ==> row.sample.Sound()
  {
    forall row | row in RowsOf(node, samples, price)
      ensures row.sample.Sound()
    {
      var i :| 0 <= i < |samples| && row == RowsOf(node, samples, price)[i];
      assert samples[i] in samples;
    }
  }

  lemma {:induction false} FreshOfPrefix(ledger: Ledger, node: string, samples: seq<Sample>, i: nat)
    requires i <= |samples|
    ensures Fresh(ledger, node, samples[..i]) <= Fresh(ledger, node, samples)
    decreases |samples| - i
  {
    if i < |samples| {
      FreshOfPrefix(ledger, node, samples, i + 1);
      assert samples[..i + 1][..i] == samples[..i];
    } else {
      assert samples[..i] == samples;
    }
  }

  lemma NextSample(ledger: Ledger, node: string, samples: seq<Sample>, i: nat)
    requires i < |samples|
    ensures var s, before := samples[i], Inserted(ledger, node, samples[..i]);
            && Inserted(ledger, node, samples[..i + 1]) == (if Key(node, s.id) in before then before else before[Key(node, s.id) := s.ended])
            && Fresh(ledger, node, samples[..i + 1]) == Fresh(ledger, node, samples[..i]) + (if Key(node, s.id) in before then [] else [s])
  {
    assert samples[..i + 1][..i] == samples[..i];
  }

  lemma RowsOfMore(node: string, samples: seq<Sample>, s: Sample, price: Sample -> Price)
    ensures RowsOf(node, samples + [s], price) == RowsOf(node, samples, price) + [StoredSample(node, s, price(s).id, price(s).priced)]
  {
  }

  lemma IdsMore(samples: seq<Sample>, i: nat)
    requires i < |samples|
    ensures Ids(samples[..i + 1]) == Ids(samples[..i]) + [samples[i].id]
  {
  }

  datatype Batch = Abort | Batch(ledger: Ledger, rows: seq<StoredSample>, ids: seq<SampleId>)

  /** The loop of Ingest: insert each sample into the ledger, store those whose insertion took effect, and
      acknowledge them all. */
  method StoreSamples(ledger: Ledger, node: string, samples: seq<Sample>, refuses: Sample -> bool, price: Sample -> Price) returns (r: Batch)
    ensures r.Batch? <==> forall s :: s in Fresh(ledger, node, samples) ==> !refuses(s)
    ensures r.Batch? ==> r.ledger == Inserted(ledger, node, samples) && r.rows == RowsOf(node, Fresh(ledger, node, samples), price) && r.ids == Ids(samples)
  {
    var tx, rows, ids := ledger, [], [];
    ghost var stored := [];
    assert tx == Inserted(ledger, node, samples[..0]) && stored == Fresh(ledger, node, samples[..0]);
    assert rows == RowsOf(node, stored, price) && ids == Ids(samples[..0]);
    hide Inserted, Fresh, RowsOf, Ids;
    for i := 0 to |samples|
      invariant tx == Inserted(ledger, node, samples[..i]) && stored == Fresh(ledger, node, samples[..i])
      invariant rows == RowsOf(node, stored, price) && ids == Ids(samples[..i])
      invariant forall s :: s in stored ==> !refuses(s)
    {
      var s := samples[i];
      NextSample(ledger, node, samples, i);
      IdsMore(samples, i);
      if Key(node, s.id) !in tx {
        if refuses(s) {
          FreshOfPrefix(ledger, node, samples, i + 1);
          assert s in Fresh(ledger, node, samples[..i + 1]);
          return Abort;
        }
        tx := tx[Key(node, s.id) := s.ended];
        RowsOfMore(node, stored, s, price);
        rows := rows + [StoredSample(node, s, price(s).id, price(s).priced)];
        stored := stored + [s];
      }
      ids := ids + [s.id];
    }
    assert samples[..|samples|] == samples;
    r := Batch(tx, rows, ids);
  }

  /** For the hours still inside retention, details and rollups together report everything ever stored. */
  ghost predicate Conserved(details: seq<StoredSample>, rollups: seq<Rollup>, intake: seq<StoredSample>, cutoff: int)
  {
    forall f: Filter :: AsksSince(f, cutoff) ==> Add(RowSum(details, f), RollupSum(rollups, f)) == RowSum(intake, f)
  }

  lemma NothingIsConserved(details: seq<StoredSample>, rollups: seq<Rollup>, intake: seq<StoredSample>, cutoff: int)
    requires details == intake == [] && rollups == []
    ensures Conserved(details, rollups, intake, cutoff)
  {
    AddLaws(ZERO_TOTALS, ZERO_TOTALS, ZERO_TOTALS);
  }

  lemma IngestConserves(details: seq<StoredSample>, rollups: seq<Rollup>, intake: seq<StoredSample>, cutoff: int,
                        rows: seq<StoredSample>)
    requires Conserved(details, rollups, intake, cutoff)
    ensures Conserved(details + rows, rollups, intake + rows, cutoff)
  {
    forall f: Filter | AsksSince(f, cutoff)
      ensures Add(RowSum(details + rows, f), RollupSum(rollups, f)) == RowSum(intake + rows, f)
    {
      var part := (row: StoredSample) => RowPart(row, f);
      FoldOfConcat(details, rows, part);
      FoldOfConcat(intake, rows, part);
      AddSwap(RowSum(details, f), RowSum(rows, f), RollupSum(rollups, f));
    }
  }

  /** Retiring a batch into the rollups and expiring old rollups moves totals without changing them. */
  lemma MaintainConserves(details: seq<StoredSample>, rollups: seq<Rollup>, intake: seq<StoredSample>, cutoff: int,
                          batch: seq<StoredSample>, rest: seq<StoredSample>, folded: seq<Rollup>, kept: seq<Rollup>)
    requires Conserved(details, rollups, intake, cutoff)
    requires forall f: Filter :: RowSum(details, f) == Add(RowSum(batch, f), RowSum(rest, f))
    requires FoldedInto(rollups, folded, batch, cutoff)
    requires forall f: Filter :: AsksSince(f, cutoff) ==> RollupSum(kept, f) == RollupSum(folded, f)
    ensures Conserved(rest, kept, intake, cutoff)
  {
    forall f: Filter | AsksSince(f, cutoff)
      ensures Add(RowSum(rest, f), RollupSum(kept, f)) == RowSum(intake, f)
    {
      KeptCounts(batch, f, cutoff);
      MoveAcross(RowSum(batch, f), RowSum(rest, f), RollupSum(rollups, f));
    }
  }

  lemma MoveAcross(moved: Totals, rest: Totals, rollup: Totals)
    ensures Add(Add(moved, rest), rollup) == Add(rest, Add(rollup, moved))
  {
  }

  /** The rows of a node, hour, model, provider, billing mode, task and price that the filter asks for; an hour is that of
      a sample's end. */
  function Asked(f: Filter): StoredSample -> bool
  {
    (row: StoredSample) =>
      f(RollupKey(row.node, row.sample.ended - row.sample.ended % 3_600_000_000, row.sample.model, row.sample.provider,
                  row.sample.billingMode, row.sample.task, row.priceId))
  }

  lemma RowSumIsBooked(rows: seq<StoredSample>, f: Filter)
    ensures Booked(RowSum(rows, f), rows, Asked(f))
  {
    hide Booked;
    FoldIsBooked(rows, (row: StoredSample) => RowPart(row, f), Asked(f));
  }

  /** Details and rollups together book everything that was ever stored, for every filter that asks only for hours inside
      the retention period. */
  ghost predicate BookedSince(details: seq<StoredSample>, rollups: seq<Rollup>, intake: seq<StoredSample>, cutoff: int)
  {
    forall f: Filter :: AsksSince(f, cutoff) ==> Booked(Add(RowSum(details, f), RollupSum(rollups, f)), intake, Asked(f))
  }

  lemma ConservedIsBooked(details: seq<StoredSample>, rollups: seq<Rollup>, intake: seq<StoredSample>, cutoff: int)
    requires Conserved(details, rollups, intake, cutoff)
    ensures BookedSince(details, rollups, intake, cutoff)
  {
    hide Booked, Asked, RowSum, RollupSum, Add;
    forall f: Filter | AsksSince(f, cutoff)
      ensures Booked(Add(RowSum(details, f), RollupSum(rollups, f)), intake, Asked(f))
    {
      RowSumIsBooked(intake, f);
    }
  }

  class Panel {
    var ledger: Ledger
    var details: seq<StoredSample>
    var rollups: seq<Rollup>
    const retentionDays: int
    const detailHours: int
    /** Everything ever stored: as entries, and as rows. */
    ghost var history: seq<Entry>
    ghost var intake: seq<StoredSample>
    /** The latest time the store was used at. */
    var clock: int

    constructor (retentionDays: int, detailHours: int)
      requires 1 <= retentionDays <= 30 && 1 <= detailHours <= 24
      ensures Valid() && history == [] && clock == 0
    {
      ledger, details, rollups, history, intake, clock := map[], [], [], [], [], 0;
      this.retentionDays, this.detailHours := retentionDays, detailHours;
      new;
      NothingIsConserved(details, rollups, intake, Cutoff(clock));
      assert GoodRollups(rollups) && Successive(history) && Protected(history, ledger, clock);
    }

    function Cutoff(now: int): int
    {
      Unix(now) - retentionDays * DAY
    }

    /** Nothing was stored twice, nothing that is forgotten could be stored again, the rollups are sound and
        the reported totals are those of everything stored. */
    ghost predicate Valid()
      reads this
    {
      && 1 <= retentionDays <= 30 && 1 <= detailHours <= 24
      && (forall row :: row in details ==> row.sample.Sound())
      && GoodRollups(rollups)
      && Successive(history)
      && Protected(history, ledger, clock)
      && Backed(ledger, history)
      && Recorded(history, intake)
      && Conserved(details, rollups, intake, Cutoff(clock))
    }

    /** Ingest.  `admits` says whether the node's state row could be saved, `refuses` whether storing a new
        sample fails (its dimensions exceed the limit, or the database does). */
    method Ingest(node: string, r: Report, now: int, admits: bool, refuses: Sample -> bool, price: Sample -> Price) returns (accepted: Accepted)
      requires Valid() && clock <= now
      modifies this
      ensures Valid() && clock == now && rollups == old(rollups)
      ensures accepted.Accepted? <==> Validate(r, now) && admits && forall s :: s in Fresh(old(ledger), node, r.samples) ==> !refuses(s)
      ensures BookedSince(details, rollups, intake, Cutoff(now))
      ensures accepted.Refused? ==> ledger == old(ledger) && details == old(details) && history == old(history) && intake == old(intake)
      ensures accepted.Accepted? ==>
                && accepted.ids == Ids(r.samples)
                && ledger == Inserted(old(ledger), node, r.samples)
                && details == old(details) + RowsOf(node, Fresh(old(ledger), node, r.samples), price)
                && intake == old(intake) + RowsOf(node, Fresh(old(ledger), node, r.samples), price)
                && history == old(history) + Entries(node, Fresh(old(ledger), node, r.samples))
    {
      hide BookedSince, Fresh, Inserted, Entries, RowsOf, Ids, Successive, Protected, Recorded, Conserved, Backed, GoodRollups;
      Age(now);
      clock := now;
      ConservedIsBooked(details, rollups, intake, Cutoff(now));
      if !Validate(r, now) || !admits {
        return Refused;
      }
      var batch := StoreSamples(ledger, node, r.samples, refuses, price);
      if batch.Abort? {
        return Refused;
      }
      NothingStoredAgain(history, ledger, now, node, r.samples, now);
      StillProtected(history, ledger, now, node, r.samples, now);
      StillBacked(ledger, history, node, r.samples);
      IngestConserves(details, rollups, intake, Cutoff(now), batch.rows);
      FreshIsNew(ledger, node, r.samples);
      RecordedMore(history, intake, node, Fresh(ledger, node, r.samples), price);
      RowsAreSound(details, node, Fresh(ledger, node, r.samples), price);
      history := history + Entries(node, Fresh(ledger, node, r.samples));
      ledger, details, intake := batch.ledger, details + batch.rows, intake + batch.rows;
      ConservedIsBooked(details, rollups, intake, Cutoff(now));
      accepted := Accepted(batch.ids);
    }

    /** Time may pass: nothing becomes unprotected and nothing more is asked for. */
    lemma Age(now: int)
      requires Valid() && clock <= now
      ensures Protected(history, ledger, now) && Conserved(details, rollups, intake, Cutoff(now))
    {
      assert Unix(clock) <= Unix(now);
      forall e | e in history
        ensures Guarded(e, ledger, now)
      {
        assert Guarded(e, ledger, clock);
      }
      assert forall f: Filter :: AsksSince(f, Cutoff(now)) ==> AsksSince(f, Cutoff(clock));
    }

    /** No row was stored twice: a node's id that is used again is used for a sample that ended later. */
    lemma StoredOnce(i: nat, j: nat)
      requires Valid() && i < j < |intake|
      ensures intake[i].node == intake[j].node && intake[i].sample.id == intake[j].sample.id ==> intake[i].sample.ended < intake[j].sample.ended
    {
      assert history[i].key == history[j].key ==> history[i].ended < history[j].ended;
    }

    /** The rows a maintenance run retires. */
    ghost function Retiring(now: int): seq<StoredSample>
      reads this
    {
      Oldest(details, Unix(now) - detailHours * HOUR, MAINTENANCE_BATCH)
    }

    /** Maintain: one bounded cleanup transaction. */
    method Maintain(now: int) returns (ok: bool)
      requires Valid() && clock <= now
      modifies this
      ensures Valid() && clock == now && history == old(history) && intake == old(intake)
      ensures ok <==> !Overflows(old(rollups), old(Retiring(now)), Cutoff(now))
      ensures !ok ==> ledger == old(ledger) && details == old(details) && rollups == old(rollups)
      ensures BookedSince(details, rollups, intake, Cutoff(now))
      ensures ok ==> multiset(old(details)) == multiset(old(Retiring(now))) + multiset(details) && |old(details)| - |details| <= 512
      ensures Cutoff(now) == (now / 1_000_000 - retentionDays * 86400) * 1_000_000
      ensures ok ==> forall row :: row in old(Retiring(now)) ==> row.sample.ended < (now / 1_000_000 - detailHours * 3600) * 1_000_000
      ensures ok ==> |old(details)| - |details| == 512 ||
                     forall row :: row in details ==> row.sample.ended >= (now / 1_000_000 - detailHours * 3600) * 1_000_000
      ensures ok ==> |rollups| + 512 <= |old(rollups)| + |old(details)| - |details| ||
                     forall r :: r in rollups ==> r.key.hour + 3600 * 1_000_000 >= (now / 1_000_000 - retentionDays * 86400) * 1_000_000
      ensures ok ==> |old(ledger)| - |ledger| == 512 || forall k :: k in ledger ==> ledger[k] >= Unix(now) - HORIZON
      ensures ok ==> forall k :: k in old(ledger) && k !in ledger ==> old(ledger)[k] < Unix(now) - HORIZON
      ensures ok ==> forall k :: k in ledger ==> k in old(ledger) && ledger[k] == old(ledger)[k]
    {
      hide BookedSince, RowSum, RollupSum, Add, Oldest, FoldedInto, Overflows, AsksSince, Conserved, Protected, Successive, Recorded, GoodRollups;
      Age(now);
      WholeSecond(now);
      clock := now;
      var batch, rest := TakeBatch(details, Unix(now) - detailHours * HOUR);
      SubsetSound(details, batch, rest);
      var folded := FoldBatch(rollups, batch, Cutoff(now));
      if folded.Overflow? {
        ConservedIsBooked(details, rollups, intake, Cutoff(now));
        return false;
      }
      var kept := ExpireRollups(folded.rollups, Cutoff(now));
      var kept' := ExpireLedger(ledger, Unix(now) - HORIZON);
      MaintainConserves(details, rollups, intake, Cutoff(now), batch, rest, folded.rollups, kept);
      ForgottenIsTooOld(history, ledger, kept', now);
      details, rollups, ledger := rest, kept, kept';
      ConservedIsBooked(details, rollups, intake, Cutoff(now));
      ok := true;
    }
  }

  lemma SubsetSound(details: seq<StoredSample>, batch: seq<StoredSample>, rest: seq<StoredSample>)
    requires multiset(details) == multiset(batch) + multiset(rest)
    ensures |details| == |batch| + |rest|
    ensures forall row :: row in batch || row in rest ==> row in details
  {
    assert |multiset(details)| == |multiset(batch)| + |multiset(rest)|;
    forall row | row in batch || row in rest
      ensures row in details
    {
      assert row in multiset(batch) || row in multiset(rest);
      assert row in multiset(details);
    }
  }

  /** What the ledger forgets is past the horizon already. */
  lemma ForgottenIsTooOld(history: seq<Entry>, ledger: Ledger, kept: Ledger, now: int)
    requires Protected(history, ledger, now)
    requires forall k :: k in kept ==> k in ledger && kept[k] == ledger[k]
    requires forall k :: k in ledger && k !in kept ==> ledger[k] < Unix(now) - HORIZON
    ensures Protected(history, kept, now)
  {
    forall e | e in history
      ensures Guarded(e, kept, now)
    {
      assert Guarded(e, ledger, now);
    }
  }

  /** A sample whose ledger row a maintenance run deleted is refused by every later ingest. */
  lemma ForgottenIsRefused(deletedAt: int, s: Sample, r: Report, now: int)
    requires s.ended < Unix(deletedAt) - HORIZON && deletedAt <= now && s in r.samples
    ensures !Validate(r, now)
  {
    assert Unix(deletedAt) <= Unix(now);
  }

  /** Some sample whose ledger row may have been deleted is valid again exactly if the clock has fallen back by a second
      since. */
  lemma ForgottenReturnsExactly(deletedAt: int, now: int)
    ensures (exists s: Sample :: s.ended < Unix(deletedAt) - HORIZON && ValidSample(s, now)) <==> Unix(now) < Unix(deletedAt)
  {
    if Unix(now) < Unix(deletedAt) {
      var start := Unix(now) - HORIZON;
      var s := Sample(0, start, start + 1, "", "", "", "", 0, 0, 0, 0, 0, 0, Unstated, 0);
      WholeSeconds(now, deletedAt);
      assert s.Sound() && Timestamp(s.started, now) && Timestamp(s.ended, now);
      assert ValidSample(s, now);
    }
  }

  lemma WholeSeconds(t: int, u: int)
    requires Unix(t) < Unix(u)
    ensures Unix(t) + 1_000_000 <= Unix(u)
  {
    assert t / 1_000_000 < u / 1_000_000;
  }

  /** With a clock that falls back it would be accepted again. */
  lemma ClockMustNotFallBack(s: Sample, deletedAt: int, now: int)
    requires s.Sound() && s.ended - s.started <= HOUR
    requires Unix(now) - HORIZON <= s.started && s.ended < Unix(deletedAt) - HORIZON && s.ended <= Unix(now)
    ensures now < deletedAt && Validate(Report(1, Unix(now), true, [s]), now)
  {
  }
}
