/** What the collector of agent/helpers/hermes_collector.py emits over a whole run: any ticks, with the source or the
control switched off, counters that cannot be read, a full outbox, acknowledgements, and crashes anywhere in a tick.

Rows are told apart by their keys: the query lists the row used last first, so their order changes all the time. */
module CollectorRuns {
  import opened Samples
  import opened C = Collector

  /** One of the six counters of a row. */
  type Counter = c: int | 0 <= c < 6

  // ---------- what the metric table has counted ----------

  function CountOf(row: MetricRow, g: Group, c: Counter): int
  {
    if GroupOf(row.key) == g then row.counts[c] else 0
  }

  /** What the rows of a group have counted altogether. */
  function Level(rows: seq<MetricRow>, g: Group, c: Counter): int
  {
    if rows == [] then 0 else Level(rows[..|rows| - 1], g, c) + CountOf(rows[|rows| - 1], g, c)
  }

  ghost predicate KeysDiffer(rows: seq<MetricRow>)
  {
    forall i, j :: 0 <= i < j < |rows| ==> rows[i].key != rows[j].key
  }

  /** A row that went on from where it was: same origin, no counter fell. */
  predicate Continues(before: MetricRow, after: MetricRow)
  {
    && after.key == before.key && after.firstSeen == before.firstSeen && after.rewind == before.rewind
    && AtMost(before.counts, after.counts)
  }

  ghost predicate HasNext(row: MetricRow, rows: seq<MetricRow>)
  {
    exists next :: next in rows && Continues(row, next)
  }

  /** Every row of the group goes on; rows may be added, change their order, and do as they like in other groups. */
  ghost predicate GoesOn(before: seq<MetricRow>, after: seq<MetricRow>, g: Group)
  {
    KeysDiffer(before) && KeysDiffer(after) && forall r :: r in before && GroupOf(r.key) == g ==> HasNext(r, after)
  }

  lemma GoesOnTwice(r: seq<MetricRow>, s: seq<MetricRow>, t: seq<MetricRow>, g: Group)
    requires GoesOn(r, s, g) && GoesOn(s, t, g)
    ensures GoesOn(r, t, g)
  {
    forall x | x in r && GroupOf(x.key) == g
      ensures HasNext(x, t)
    {
      assert HasNext(x, s);
      var y :| y in s && Continues(x, y);
      assert HasNext(y, t);
      var z :| z in t && Continues(y, z);
      assert Continues(x, z);
    }
  }

  /** What rows of the group count that were added, but not first seen in the interval: it cannot be told when. */
  function Unproven(previous: Baseline, rows: seq<MetricRow>, g: Group, start: int, now: int, c: Counter): int
  {
    if rows == [] then 0
    else Unproven(previous, rows[..|rows| - 1], g, start, now, c) + UnprovenPart(previous, rows[|rows| - 1], g, start, now, c)
  }

  function UnprovenPart(previous: Baseline, row: MetricRow, g: Group, start: int, now: int, c: Counter): int
  {
    if row.key !in previous && !(start <= row.firstSeen <= now) then CountOf(row, g, c) else 0
  }

  /** The baseline is the snapshot of these rows, as far as the group is concerned. */
  ghost predicate Marks(previous: Baseline, rest: seq<MetricRow>, g: Group)
  {
    forall r :: r in rest && GroupOf(r.key) == g ==> r.key in previous && previous[r.key] == MarkOf(r)
  }

  ghost predicate HasKey(rows: seq<MetricRow>, key: RowKey)
  {
    exists r :: r in rows && r.key == key
  }

  lemma NoKeys()
    ensures forall k :: !HasKey([], k)
  {
  }

  lemma HasKeyMore(rows: seq<MetricRow>, row: MetricRow, key: RowKey)
    ensures HasKey(rows + [row], key) <==> HasKey(rows, key) || row.key == key
  {
    if HasKey(rows, key) {
      var r :| r in rows && r.key == key;
      assert r in rows + [row];
    }
    assert row in rows + [row];
  }

  lemma {:induction false} SnapshotHolds(rows: seq<MetricRow>, g: Group)
    requires KeysDiffer(rows)
    ensures Marks(Snapshot(rows), rows, g)
    ensures forall k :: k in Snapshot(rows) <==> HasKey(rows, k)
  {
    hide HasKey, MarkOf;
    if rows == [] {
      NoKeys();
    } else {
      var front, last := rows[..|rows| - 1], rows[|rows| - 1];
      SnapshotHolds(front, g);
      assert rows == front + [last];
      forall k
        ensures k in Snapshot(rows) <==> HasKey(rows, k)
      {
        HasKeyMore(front, last, k);
      }
    }
  }

  function Without(rows: seq<MetricRow>, i: nat): seq<MetricRow>
    requires i < |rows|
  {
    rows[..i] + rows[i + 1..]
  }

  lemma LevelMore(rows: seq<MetricRow>, row: MetricRow, g: Group, c: Counter)
    ensures Level(rows + [row], g, c) == Level(rows, g, c) + CountOf(row, g, c)
  {
    assert (rows + [row])[..|rows|] == rows;
  }

  lemma {:induction false} LevelWithout(rows: seq<MetricRow>, i: nat, g: Group, c: Counter)
    requires i < |rows|
    ensures Level(rows, g, c) == Level(Without(rows, i), g, c) + CountOf(rows[i], g, c)
  {
    hide Level, CountOf;
    var front, last := rows[..|rows| - 1], rows[|rows| - 1];
    assert rows == front + [last];
    LevelMore(front, last, g, c);
    if i < |rows| - 1 {
      LevelWithout(front, i, g, c);
      assert Without(rows, i) == Without(front, i) + [last];
      LevelMore(Without(front, i), last, g, c);
    } else {
      assert Without(rows, i) == front;
    }
  }

  lemma {:induction false} NoLevel(rows: seq<MetricRow>, g: Group, c: Counter)
    requires forall r :: r in rows ==> GroupOf(r.key) != g
    ensures Level(rows, g, c) == 0
  {
    if rows != [] {
      assert rows[|rows| - 1] in rows;
      NoLevel(rows[..|rows| - 1], g, c);
    }
  }

  /** What the last row adds to each side of the account. */
  lemma LastRow(previous: Baseline, after: seq<MetricRow>, g: Group, start: int, now: int, c: Counter)
    requires after != []
    ensures var front, row := after[..|after| - 1], after[|after| - 1];
            && Level(after, g, c) == Level(front, g, c) + CountOf(row, g, c)
            && GroupGrowth(previous, after, g, start, now)[c] == GroupGrowth(previous, front, g, start, now)[c] + Contribution(previous, row, g, start, now)[c]
            && Unproven(previous, after, g, start, now, c) == Unproven(previous, front, g, start, now, c) + UnprovenPart(previous, row, g, start, now, c)
  {
  }

  lemma AddedRow(previous: Baseline, row: MetricRow, g: Group, start: int, now: int, c: Counter)
    requires GroupOf(row.key) == g ==> row.key !in previous
    ensures CountOf(row, g, c) == Contribution(previous, row, g, start, now)[c] + UnprovenPart(previous, row, g, start, now, c)
  {
  }

  lemma ContinuedRow(previous: Baseline, before: MetricRow, row: MetricRow, g: Group, start: int, now: int, c: Counter)
    requires Continues(before, row) && row.key in previous && previous[row.key] == MarkOf(before)
    ensures CountOf(row, g, c) == CountOf(before, g, c) + Contribution(previous, row, g, start, now)[c] + UnprovenPart(previous, row, g, start, now, c)
  {
  }

  /** Every counter unit of the group is accounted for: what was there, what is found to have grown, and what is
      unproven.  `rest` is what the baseline was taken from, in any order. */
  lemma {:induction false} Accounts(previous: Baseline, rest: seq<MetricRow>, after: seq<MetricRow>, g: Group, start: int, now: int, c: Counter)
    requires GoesOn(rest, after, g) && Marks(previous, rest, g)
    requires forall s :: s in after && GroupOf(s.key) == g && s.key in previous ==> HasKey(rest, s.key)
    ensures Level(after, g, c) == Level(rest, g, c) + GroupGrowth(previous, after, g, start, now)[c] + Unproven(previous, after, g, start, now, c)
    decreases |after|
  {
    if after == [] {
      NothingLeft(previous, rest, g, start, now, c);
    } else {
      hide Level, CountOf, GroupGrowth, Contribution, Unproven, UnprovenPart, Continues, GoesOn;
      var front, row := after[..|after| - 1], after[|after| - 1];
      assert row in after && after == front + [row];
      LastRow(previous, after, g, start, now, c);
      if GroupOf(row.key) == g && row.key in previous {
        var r :| r in rest && r.key == row.key;
        var i :| 0 <= i < |rest| && rest[i] == r;
        OneRowLess(rest, after, g, i);
        Accounts(previous, Without(rest, i), front, g, start, now, c);
        LevelWithout(rest, i, g, c);
        ContinuedRow(previous, r, row, g, start, now, c);
      } else {
        AddedRow(previous, row, g, start, now, c);
        NotTheLast(rest, after, g);
        Accounts(previous, rest, front, g, start, now, c);
      }
    }
  }

  lemma NothingLeft(previous: Baseline, rest: seq<MetricRow>, g: Group, start: int, now: int, c: Counter)
    requires GoesOn(rest, [], g)
    ensures Level([], g, c) == Level(rest, g, c) + GroupGrowth(previous, [], g, start, now)[c] + Unproven(previous, [], g, start, now, c)
  {
    forall r | r in rest
      ensures GroupOf(r.key) != g
    {
      assert GroupOf(r.key) == g ==> HasNext(r, []);
    }
    NoLevel(rest, g, c);
  }

  lemma KeyNamesRow(rows: seq<MetricRow>, x: MetricRow, y: MetricRow)
    requires KeysDiffer(rows) && x in rows && y in rows && x.key == y.key
    ensures x == y
  {
    var i :| 0 <= i < |rows| && rows[i] == x;
    var j :| 0 <= j < |rows| && rows[j] == y;
    assert i == j;
  }

  lemma RemovedAt(rows: seq<MetricRow>, i: nat, r: MetricRow)
    requires KeysDiffer(rows) && i < |rows|
    ensures r in Without(rows, i) <==> r in rows && r.key != rows[i].key
  {
    if r in Without(rows, i) {
      var j :| 0 <= j < |rows| - 1 && Without(rows, i)[j] == r;
      assert r == rows[if j < i then j else j + 1];
    }
    if r in rows && r.key != rows[i].key {
      var j :| 0 <= j < |rows| && rows[j] == r;
      assert Without(rows, i)[if j < i then j else j - 1] == r;
    }
  }

  lemma KeysStillDiffer(rows: seq<MetricRow>, i: nat)
    requires KeysDiffer(rows) && i < |rows|
    ensures KeysDiffer(Without(rows, i))
  {
    forall j, k | 0 <= j < k < |rows| - 1
      ensures Without(rows, i)[j].key != Without(rows, i)[k].key
    {
      assert Without(rows, i)[j] == rows[if j < i then j else j + 1] && Without(rows, i)[k] == rows[if k < i then k else k + 1];
    }
  }

  /** Take a row and its successor away. */
  lemma OneRowLess(rest: seq<MetricRow>, after: seq<MetricRow>, g: Group, i: nat)
    requires GoesOn(rest, after, g) && i < |rest| && after != [] && GroupOf(rest[i].key) == g
    requires rest[i].key == after[|after| - 1].key
    ensures Continues(rest[i], after[|after| - 1])
    ensures GoesOn(Without(rest, i), after[..|after| - 1], g)
    ensures forall r :: r in Without(rest, i) ==> r in rest
    ensures forall s :: s in after[..|after| - 1] && HasKey(rest, s.key) ==> HasKey(Without(rest, i), s.key)
  {
    var fewer, front, last := Without(rest, i), Without(after, |after| - 1), after[|after| - 1];
    assert front == after[..|after| - 1];
    KeysStillDiffer(rest, i);
    KeysStillDiffer(after, |after| - 1);
    hide Without, KeysDiffer, AtMost;
    assert rest[i] in rest && HasNext(rest[i], after);
    var next :| next in after && Continues(rest[i], next);
    KeyNamesRow(after, next, last);
    forall r | r in fewer
      ensures r in rest && (GroupOf(r.key) == g ==> HasNext(r, front))
    {
      RemovedAt(rest, i, r);
      if GroupOf(r.key) == g {
        assert HasNext(r, after);
        var s :| s in after && Continues(r, s);
        RemovedAt(after, |after| - 1, s);
      }
    }
    forall s | s in front && HasKey(rest, s.key)
      ensures HasKey(fewer, s.key)
    {
      RemovedAt(after, |after| - 1, s);
      var r :| r in rest && r.key == s.key;
      RemovedAt(rest, i, r);
    }
  }

  /** No row of the group continues in a last row of another group, or with a key that was not there. */
  lemma NotTheLast(rest: seq<MetricRow>, after: seq<MetricRow>, g: Group)
    requires GoesOn(rest, after, g) && after != []
    requires forall r :: r in rest && GroupOf(r.key) == g ==> r.key != after[|after| - 1].key
    ensures GoesOn(rest, after[..|after| - 1], g)
  {
    forall r | r in rest && GroupOf(r.key) == g
      ensures HasNext(r, after[..|after| - 1])
    {
      assert HasNext(r, after);
      var s :| s in after && Continues(r, s);
      assert after == after[..|after| - 1] + [after[|after| - 1]];
    }
  }

  /** Over one interval: the level rises by what is emitted and by what is unproven. */
  lemma StepAccounts(before: seq<MetricRow>, after: seq<MetricRow>, g: Group, start: int, now: int, c: Counter)
    requires GoesOn(before, after, g)
    ensures Level(after, g, c) == Level(before, g, c) + GroupGrowth(Snapshot(before), after, g, start, now)[c]
                                  + Unproven(Snapshot(before), after, g, start, now, c)
  {
    SnapshotHolds(before, g);
    Accounts(Snapshot(before), before, after, g, start, now, c);
  }

  lemma {:induction false} UnprovenIsPositive(previous: Baseline, rows: seq<MetricRow>, g: Group, start: int, now: int, c: Counter)
    requires ValidRows(rows)
    ensures Unproven(previous, rows, g, start, now, c) >= 0
  {
    if rows != [] {
      assert rows[|rows| - 1] in rows;
      UnprovenIsPositive(previous, rows[..|rows| - 1], g, start, now, c);
    }
  }

  lemma {:induction false} GrowthIsPositive(previous: Baseline, rows: seq<MetricRow>, g: Group, start: int, now: int, c: Counter)
    requires ValidRows(rows)
    ensures GroupGrowth(previous, rows, g, start, now)[c] >= 0
  {
    if rows != [] {
      assert rows[|rows| - 1] in rows;
      GrowthIsPositive(previous, rows[..|rows| - 1], g, start, now, c);
    }
  }

  /** Whatever interval the growth is taken over, it is never more than the group truly grew, and the level never falls. */
  lemma GrowthIsBounded(before: seq<MetricRow>, after: seq<MetricRow>, g: Group, start: int, now: int, c: Counter)
    requires GoesOn(before, after, g) && ValidRows(after)
    ensures 0 <= GroupGrowth(Snapshot(before), after, g, start, now)[c] <= Level(after, g, c) - Level(before, g, c)
  {
    StepAccounts(before, after, g, start, now, c);
    UnprovenIsPositive(Snapshot(before), after, g, start, now, c);
    GrowthIsPositive(Snapshot(before), after, g, start, now, c);
  }

  /** Every added row of the group was first seen in the interval. */
  ghost predicate AddedInTime(before: seq<MetricRow>, after: seq<MetricRow>, g: Group, start: int, now: int)
  {
    forall s :: s in after && GroupOf(s.key) == g && !HasKey(before, s.key) ==> start <= s.firstSeen <= now
  }

  lemma {:induction false} NothingUnproven(previous: Baseline, rows: seq<MetricRow>, g: Group, start: int, now: int, c: Counter)
    requires forall s :: s in rows && GroupOf(s.key) == g && s.key !in previous ==> start <= s.firstSeen <= now
    ensures Unproven(previous, rows, g, start, now, c) == 0
  {
    if rows != [] {
      assert rows[|rows| - 1] in rows;
      NothingUnproven(previous, rows[..|rows| - 1], g, start, now, c);
    }
  }

  /** And it is all of it when every added row was first seen in the interval. */
  lemma GrowthIsExact(before: seq<MetricRow>, after: seq<MetricRow>, g: Group, start: int, now: int, c: Counter)
    requires GoesOn(before, after, g) && AddedInTime(before, after, g, start, now)
    ensures GroupGrowth(Snapshot(before), after, g, start, now)[c] == Level(after, g, c) - Level(before, g, c)
  {
    StepAccounts(before, after, g, start, now, c);
    SnapshotHolds(before, g);
    NothingUnproven(Snapshot(before), after, g, start, now, c);
  }

  // ---------- what samples count ----------

  /** What a sample counts for a group. */
  function Share(s: Sample, g: Group, c: Counter): int
  {
    if NameOf(s) == g then CountsOf(s)[c] else 0
  }

  function Emitted(samples: seq<Sample>, g: Group, c: Counter): int
  {
    if samples == [] then 0 else Emitted(samples[..|samples| - 1], g, c) + Share(samples[|samples| - 1], g, c)
  }

  lemma {:induction false} EmittedOfConcat(r: seq<Sample>, s: seq<Sample>, g: Group, c: Counter)
    ensures Emitted(r + s, g, c) == Emitted(r, g, c) + Emitted(s, g, c)
  {
    if s == [] {
      assert r + s == r;
    } else {
      EmittedOfConcat(r, s[..|s| - 1], g, c);
      assert (r + s)[..|r + s| - 1] == r + s[..|s| - 1];
    }
  }

  lemma {:induction false} NoRowsNoGrowth(previous: Baseline, rows: seq<MetricRow>, g: Group, start: int, now: int)
    requires forall row :: row in rows ==> GroupOf(row.key) != g
    ensures GroupGrowth(previous, rows, g, start, now) == NOTHING
  {
    if rows != [] {
      assert rows[|rows| - 1] in rows;
      NoRowsNoGrowth(previous, rows[..|rows| - 1], g, start, now);
      PlusLaws(NOTHING, NOTHING, NOTHING);
    }
  }

  lemma ShareOf(h: Group, counts: Counters, resets: nat, start: int, now: int, id: SampleId, g: Group, c: Counter)
    ensures Share(SampleOf(h, counts, resets, start, now, id), g, c) == if h == g then counts[c] else 0
  {
  }

  /** The first samples of a tick count the growth of their groups, each once. */
  lemma {:induction false} EmissionCounts(samples: seq<Sample>, order: seq<Group>, previous: Baseline, rows: seq<MetricRow>, start: int, now: int,
                                          ids: seq<SampleId>, g: Group, c: Counter, k: nat)
    requires k <= |samples| <= |ids| && Emission(samples, order, previous, rows, Some(start), now, ids)
    ensures Emitted(samples[..k], g, c) == if g in order[..k] then GroupGrowth(previous, rows, g, start, now)[c] else 0
  {
    if k > 0 {
      hide GroupGrowth, GroupResets, SampleOf, Share, GroupsOf;
      EmissionCounts(samples, order, previous, rows, start, now, ids, g, c, k - 1);
      var h := order[k - 1];
      ShareOf(h, GroupGrowth(previous, rows, h, start, now), GroupResets(previous, rows, h, start, now), start, now, ids[k - 1], g, c);
      assert samples[..k][..k - 1] == samples[..k - 1] && order[..k] == order[..k - 1] + [h];
    }
  }

  /** The samples of a tick count each group's growth once. */
  lemma EmissionIsGrowth(samples: seq<Sample>, order: seq<Group>, previous: Baseline, rows: seq<MetricRow>, start: int, now: int,
                         ids: seq<SampleId>, g: Group, c: Counter)
    requires |samples| <= |ids| && Emission(samples, order, previous, rows, Some(start), now, ids)
    ensures Emitted(samples, g, c) == GroupGrowth(previous, rows, g, start, now)[c]
  {
    hide GroupGrowth, GroupResets, SampleOf, Share, Emitted;
    EmissionCounts(samples, order, previous, rows, start, now, ids, g, c, |samples|);
    assert samples[..|samples|] == samples && order[..|order|] == order;
    if g !in order {
      NoRowsNoGrowth(previous, rows, g, start, now);
    }
  }

  /** A proven sample of a group whose rows go on counts all that the group has counted between the two readings. */
  lemma ProvenCountsAll(before: seq<MetricRow>, after: seq<MetricRow>, s: Sample, start: int, now: int, c: Counter)
    requires GoesOn(before, after, NameOf(s)) && Reports(s, Snapshot(before), after, start, now)
    requires s.coverage == Coverage.Proven
    ensures CountsOf(s)[c] == Level(after, NameOf(s), c) - Level(before, NameOf(s), c)
  {
    var g := NameOf(s);
    SnapshotHolds(before, g);
    GainIsGrowth(Snapshot(before), after, g, start, now, c);
    forall row | row in after && GroupOf(row.key) == g && !HasKey(before, row.key)
      ensures start <= row.firstSeen <= now
    {
      assert Told(Snapshot(before), row, start, now);
    }
    GrowthIsExact(before, after, g, start, now, c);
  }

  // ---------- the readings that were adopted ----------

  /** A reading that durably became the baseline, the start of the interval that it closed, if that was bounded, and
      the tick it was taken in. */
  datatype Adoption = Adoption(rows: seq<MetricRow>, at: int, start: Option<int>, tick: int)

  /** What the last reading of a path emits. */
  function LinkGrowth(before: Adoption, after: Adoption, g: Group): Counters
  {
    match after.start
    case None => NOTHING
    case Some(start) => GroupGrowth(Snapshot(before.rows), after.rows, g, start, after.at)
  }

  function PathGrowth(path: seq<Adoption>, g: Group, c: Counter): int
  {
    if |path| <= 1 then 0
    else PathGrowth(path[..|path| - 1], g, c) + LinkGrowth(path[|path| - 2], path[|path| - 1], g)[c]
  }

  /** The group's rows go on from each adopted reading to the next. */
  ghost predicate PathGoesOn(path: seq<Adoption>, g: Group)
  {
    forall k :: 0 < k < |path| ==> GoesOn(path[k - 1].rows, path[k].rows, g) && ValidRows(path[k].rows)
  }

  /** The interval is bounded, and the group's added rows were first seen in it. */
  ghost predicate Proves(before: Adoption, after: Adoption, g: Group)
  {
    after.start.Some? && AddedInTime(before.rows, after.rows, g, after.start.value, after.at)
  }

  lemma LinkIsBounded(before: Adoption, after: Adoption, g: Group, c: Counter)
    requires GoesOn(before.rows, after.rows, g) && ValidRows(after.rows)
    ensures LinkGrowth(before, after, g)[c] <= Level(after.rows, g, c) - Level(before.rows, g, c)
    ensures Proves(before, after, g) ==> LinkGrowth(before, after, g)[c] == Level(after.rows, g, c) - Level(before.rows, g, c)
  {
    var start := match after.start case None => 0 case Some(s) => s;
    GrowthIsBounded(before.rows, after.rows, g, start, after.at, c);
    if Proves(before, after, g) {
      GrowthIsExact(before.rows, after.rows, g, start, after.at, c);
    }
  }

  lemma PathMore(path: seq<Adoption>, next: Adoption, g: Group, c: Counter)
    requires path != []
    ensures PathGrowth(path + [next], g, c) == PathGrowth(path, g, c) + LinkGrowth(path[|path| - 1], next, g)[c]
  {
    assert (path + [next])[..|path|] == path;
  }

  lemma LinkAccounts(path: seq<Adoption>, g: Group, c: Counter, k: nat)
    requires 0 < k < |path| && PathGoesOn(path, g)
    ensures PathGrowth(path[..k + 1], g, c) - PathGrowth(path[..k], g, c) <= Level(path[k].rows, g, c) - Level(path[k - 1].rows, g, c)
    ensures Proves(path[k - 1], path[k], g) ==>
              PathGrowth(path[..k + 1], g, c) - PathGrowth(path[..k], g, c) == Level(path[k].rows, g, c) - Level(path[k - 1].rows, g, c)
  {
    LinkIsBounded(path[k - 1], path[k], g, c);
    assert path[..k + 1] == path[..k] + [path[k]];
    PathMore(path[..k], path[k], g, c);
  }

  /** Over a whole path no more is emitted than the group grew. */
  lemma {:induction false} PathIsBounded(path: seq<Adoption>, g: Group, c: Counter, j: nat)
    requires j < |path| && PathGoesOn(path, g)
    ensures PathGrowth(path[..j + 1], g, c) <= Level(path[j].rows, g, c) - Level(path[0].rows, g, c)
  {
    if j > 0 {
      hide *;
      PathIsBounded(path, g, c, j - 1);
      LinkAccounts(path, g, c, j);
    }
  }

  /** A stretch of bounded intervals, with the group's added rows first seen in them. */
  ghost predicate Proven(path: seq<Adoption>, g: Group, i: int, j: int)
  {
    0 <= i <= j < |path| && forall k :: i < k <= j ==> Proves(path[k - 1], path[k], g)
  }

  /** What is emitted after one adopted reading and up to another. */
  ghost function EmittedBetween(path: seq<Adoption>, g: Group, c: Counter, i: int, j: int): int
    requires 0 <= i <= j < |path|
  {
    PathGrowth(path[..j + 1], g, c) - PathGrowth(path[..i + 1], g, c)
  }

  /** Over such a stretch what is emitted is exactly what the group grew. */
  lemma {:induction false} StretchIsExact(path: seq<Adoption>, g: Group, c: Counter, i: nat, j: nat)
    requires PathGoesOn(path, g) && Proven(path, g, i, j)
    ensures EmittedBetween(path, g, c, i, j) == Level(path[j].rows, g, c) - Level(path[i].rows, g, c)
    decreases j - i
  {
    hide PathGrowth, Level, Proves, PathGoesOn, LinkGrowth;
    if i < j {
      StretchIsExact(path, g, c, i, j - 1);
      LinkAccounts(path, g, c, j);
    }
  }

  // ---------- ticks ----------

  /** One tick: what it meets, whether the state is also written before the quota request, and whether the collector
      lives to write it at the end.  If not, it starts again from what is on disk. */
  datatype Tick = Tick(now: int, enabled: bool, source: Source, acks: set<SampleId>, ids: seq<SampleId>, early: bool, completes: bool)

  /** What became of the baseline and `last`, durably. */
  datatype Effect = Adopted | Kept | Dropped

  predicate Forgets(s: State, now: int, retention: int)
  {
    s.lastSuccess.Some? && now - s.lastSuccess.value > retention
  }

  /** The interval a tick closes, if it does. */
  function StartFor(s: State, now: int, interval: int, retention: int): Option<int>
  {
    if Forgets(s, now, retention) then None else StartOf(s.last, now, interval)
  }

  function EffectOf(s: State, t: Tick, status: Status, retention: int): Effect
  {
    if t.completes && (status == Collecting || status == NoUsage) then Adopted
    else if t.completes && (status == Disabled || status == Unavailable) then Dropped
    else if (t.completes || t.early) && Forgets(s, t.now, retention) then Dropped
    else Kept
  }

  ghost predicate Ticked(before: State, after: State, t: Tick, effect: Effect, more: seq<Sample>, interval: int, retention: int)
  {
    match effect
    case Kept => more == [] && after.last == before.last && after.baseline == before.baseline && after.lastSuccess == before.lastSuccess
    case Dropped => more == [] && after.last == None
    case Adopted =>
      && t.source.Readable? && ValidRows(t.source.rows)
      && after.last == after.lastSuccess == Some(t.now) && after.baseline == Snapshot(t.source.rows)
      && (StartFor(before, t.now, interval, retention) == None ==> more == [])
      && (StartFor(before, t.now, interval, retention).Some? ==>
            && ReportsAll(more, before.baseline, t.source.rows, before.last.value, t.now)
            && forall g, c: Counter :: Emitted(more, g, c) == GroupGrowth(before.baseline, t.source.rows, g, before.last.value, t.now)[c])
  }

  /** What the tick reports, or would have reported. */
  ghost predicate StatusIs(status: Status, before: State, t: Tick, interval: int, retention: int)
  {
    var start := StartFor(before, t.now, interval, retention);
    var pending := |Unacknowledged(before.outbox, t.acks)|;
    var baseline := if Forgets(before, t.now, retention) then map[] else before.baseline;
    && (status == Disabled <==> !t.enabled)
    && (status == Unavailable <==> t.enabled && pending < 4096 && Unmeasurable(baseline, t.source, start, t.now))
    && (status == Stale <==> t.enabled && status != Unavailable && (pending >= 4096 || pending + Demand(t.source, start) > 4096))
  }

  /** The outbox holds what it held and what was emitted, except for what was acknowledged. */
  ghost predicate Carried(before: seq<Sample>, after: seq<Sample>, more: seq<Sample>, acks: set<SampleId>)
  {
    && (forall s :: s in after ==> s in before || s in more)
    && (forall s :: s in before || s in more ==> s in after || s.id in acks)
  }

  method OneTick(c: Collector, t: Tick) returns (status: Status, ghost more: seq<Sample>)
    requires c.Valid() && |t.ids| >= MAX_GROUPS
    modifies c
    ensures c.Valid()
    ensures Ticked(old(c.state), c.state, t, EffectOf(old(c.state), t, status, c.retention), more, c.interval, c.retention)
    ensures Carried(old(c.state.outbox), c.state.outbox, more, t.acks)
    ensures StatusIs(status, old(c.state), t, c.interval, c.retention)
  {
    hide ReportsAll, GroupGrowth, Emitted, Snapshot, Unmeasurable, Excessive, ValidRows, Carried;
    var disk := c.state;
    c.Absorb(t.now, t.acks);
    if t.early {
      disk := c.state;
    }
    ghost var absorbed := c.state;
    ghost var order;
    status, order := c.Collect(t.now, t.enabled, t.source, t.ids);
    more := [];
    if t.completes {
      if status == Collecting || status == NoUsage {
        more := c.state.outbox[|absorbed.outbox|..];
        assert c.state.outbox == absorbed.outbox + more;
        GrowthOfTick(absorbed, t, order, more, c.interval);
      }
    } else {
      c.Restart(disk);
    }
    OutboxIsCarried(old(c.state.outbox), more, t.acks);
  }

  lemma OutboxIsCarried(before: seq<Sample>, more: seq<Sample>, acks: set<SampleId>)
    ensures Carried(before, Unacknowledged(before, acks) + more, more, acks)
    ensures Carried(before, Unacknowledged(before, acks), [], acks) && Carried(before, before, [], acks)
  {
  }

  lemma GrowthOfTick(absorbed: State, t: Tick, order: seq<Group>, more: seq<Sample>, interval: int)
    requires t.source.Readable? && |more| <= |t.ids|
    requires Emission(more, order, absorbed.baseline, t.source.rows, StartOf(absorbed.last, t.now, interval), t.now, t.ids)
    ensures StartOf(absorbed.last, t.now, interval) == None ==> more == []
    ensures StartOf(absorbed.last, t.now, interval).Some? ==>
              && ReportsAll(more, absorbed.baseline, t.source.rows, absorbed.last.value, t.now)
              && forall g, c: Counter :: Emitted(more, g, c) == GroupGrowth(absorbed.baseline, t.source.rows, g, absorbed.last.value, t.now)[c]
  {
    hide ReportsAll, Emitted, GroupGrowth;
    if StartOf(absorbed.last, t.now, interval).Some? {
      EmissionReports(more, order, absorbed.baseline, t.source.rows, absorbed.last.value, t.now, t.ids);
      forall g, c: Counter
        ensures Emitted(more, g, c) == GroupGrowth(absorbed.baseline, t.source.rows, g, absorbed.last.value, t.now)[c]
      {
        EmissionIsGrowth(more, order, absorbed.baseline, t.source.rows, absorbed.last.value, t.now, t.ids, g, c);
      }
    }
  }

  // ---------- runs ----------

  datatype Reading = Reading(rows: seq<MetricRow>, at: int)

  predicate AllKept(effects: seq<Effect>, from: int, to: int)
    requires 0 <= from && to <= |effects|
  {
    forall j :: from <= j < to ==> effects[j] == Kept
  }

  lemma KeptBefore(effects: seq<Effect>, effect: Effect, from: int, to: int)
    requires 0 <= from && to <= |effects|
    ensures AllKept(effects + [effect], from, to) <==> AllKept(effects, from, to)
    ensures from <= |effects| ==> (AllKept(effects + [effect], from, |effects| + 1) <==> AllKept(effects, from, |effects|) && effect == Kept)
  {
    assert forall j :: 0 <= j < |effects| ==> (effects + [effect])[j] == effects[j];
    assert (effects + [effect])[|effects|] == effect;
  }

  /** From one adopted reading to the next the interval stayed bounded: `last` was kept in between, and the readings
      are close enough.  `begun` says that the first reading was the baseline when the run began. */
  predicate Bounded(before: Adoption, at: int, tick: int, effects: seq<Effect>, begun: bool, interval: int, retention: int)
    requires -1 <= before.tick && tick <= |effects|
  {
    && (before.tick >= 0 || begun) && AllKept(effects, before.tick + 1, tick)
    && at - before.at <= retention && StartOf(Some(before.at), at, interval).Some?
  }

  ghost predicate LinkOf(before: Adoption, after: Adoption, ticks: seq<Tick>, effects: seq<Effect>, begun: bool, interval: int, retention: int)
    requires |effects| <= |ticks|
  {
    && 0 <= after.tick < |effects| && -1 <= before.tick < after.tick && effects[after.tick] == Adopted
    && ticks[after.tick].source == Readable(after.rows) && ValidRows(after.rows) && ticks[after.tick].now == after.at
    && after.start == if Bounded(before, after.at, after.tick, effects, begun, interval, retention) then Some(before.at) else None
  }

  ghost predicate Visits(path: seq<Adoption>, i: int)
  {
    exists k :: 0 < k < |path| && path[k].tick == i
  }

  /** The path holds exactly the readings that were adopted, in order, with the intervals they closed. */
  ghost predicate IsPath(path: seq<Adoption>, first: Reading, ticks: seq<Tick>, effects: seq<Effect>, begun: bool, interval: int, retention: int)
    requires |effects| <= |ticks|
  {
    && path != [] && path[0] == Adoption(first.rows, first.at, None, -1)
    && (forall k :: 0 < k < |path| ==> LinkOf(path[k - 1], path[k], ticks, effects, begun, interval, retention))
    && (forall i :: 0 <= i < |effects| && effects[i] == Adopted ==> Visits(path, i))
  }

  /** The last adopted reading is the baseline still. */
  predicate Live(path: seq<Adoption>, effects: seq<Effect>, begun: bool)
    requires path != [] && -1 <= path[|path| - 1].tick
  {
    var p := path[|path| - 1];
    (p.tick >= 0 || begun) && AllKept(effects, p.tick + 1, |effects|)
  }

  ghost predicate StateFits(s: State, path: seq<Adoption>, effects: seq<Effect>, begun: bool)
    requires path != [] && -1 <= path[|path| - 1].tick
  {
    var p := path[|path| - 1];
    if Live(path, effects, begun) then s.last == s.lastSuccess == Some(p.at) && s.baseline == Snapshot(p.rows) else s.last == None
  }

  ghost predicate EmittedOnPath(log: seq<Sample>, path: seq<Adoption>)
  {
    forall g, c: Counter :: Emitted(log, g, c) == PathGrowth(path, g, c)
  }

  function Continued(path: seq<Adoption>, before: State, t: Tick, effect: Effect, tick: nat, interval: int, retention: int): seq<Adoption>
  {
    if effect == Adopted && t.source.Readable?
    then path + [Adoption(t.source.rows, t.now, StartFor(before, t.now, interval, retention), tick)]
    else path
  }

  lemma OldLinkStays(before: Adoption, after: Adoption, ticks: seq<Tick>, effects: seq<Effect>, effect: Effect, begun: bool, interval: int, retention: int)
    requires |effects| < |ticks| && LinkOf(before, after, ticks, effects, begun, interval, retention)
    ensures LinkOf(before, after, ticks, effects + [effect], begun, interval, retention)
  {
    KeptBefore(effects, effect, before.tick + 1, after.tick);
  }

  lemma OldPathStays(path: seq<Adoption>, next: seq<Adoption>, first: Reading, ticks: seq<Tick>, effects: seq<Effect>, effect: Effect,
                     begun: bool, interval: int, retention: int)
    requires |effects| < |ticks| && IsPath(path, first, ticks, effects, begun, interval, retention) && path <= next
    ensures next[0] == Adoption(first.rows, first.at, None, -1)
    ensures forall k :: 0 < k < |path| ==> LinkOf(next[k - 1], next[k], ticks, effects + [effect], begun, interval, retention)
    ensures forall i :: 0 <= i < |effects| && effects[i] == Adopted ==> Visits(next, i)
  {
    hide LinkOf;
    forall k | 0 < k < |path|
      ensures LinkOf(next[k - 1], next[k], ticks, effects + [effect], begun, interval, retention)
    {
      OldLinkStays(path[k - 1], path[k], ticks, effects, effect, begun, interval, retention);
    }
    forall i | 0 <= i < |effects| && effects[i] == Adopted
      ensures Visits(next, i)
    {
      assert Visits(path, i);
      var k :| 0 < k < |path| && path[k].tick == i;
      assert next[k].tick == i;
    }
  }

  lemma PathStep(path: seq<Adoption>, first: Reading, ticks: seq<Tick>, effects: seq<Effect>, begun: bool, interval: int, retention: int,
                 before: State, after: State, effect: Effect, more: seq<Sample>)
    requires |effects| < |ticks| && IsPath(path, first, ticks, effects, begun, interval, retention)
    requires -1 <= path[|path| - 1].tick < |effects| && StateFits(before, path, effects, begun)
    requires Ticked(before, after, ticks[|effects|], effect, more, interval, retention)
    ensures var next := Continued(path, before, ticks[|effects|], effect, |effects|, interval, retention);
            && next != [] && IsPath(next, first, ticks, effects + [effect], begun, interval, retention)
            && -1 <= next[|next| - 1].tick <= |effects| && StateFits(after, next, effects + [effect], begun)
  {
    hide Emitted, GroupGrowth, Snapshot, ValidRows, StartOf, LinkOf, AllKept, Visits;
    var t, p := ticks[|effects|], path[|path| - 1];
    var next := Continued(path, before, t, effect, |effects|, interval, retention);
    OldPathStays(path, next, first, ticks, effects, effect, begun, interval, retention);
    KeptBefore(effects, effect, p.tick + 1, |effects|);
    if effect == Adopted {
      NewLink(path, ticks, effects, begun, interval, retention, before, after, more);
    }
  }

  /** An adopted reading extends the path, and the start of its interval tells whether that is bounded. */
  lemma NewLink(path: seq<Adoption>, ticks: seq<Tick>, effects: seq<Effect>, begun: bool, interval: int, retention: int,
                before: State, after: State, more: seq<Sample>)
    requires path != [] && |effects| < |ticks| && -1 <= path[|path| - 1].tick < |effects| && StateFits(before, path, effects, begun)
    requires Ticked(before, after, ticks[|effects|], Adopted, more, interval, retention)
    ensures var p, next := path[|path| - 1], Continued(path, before, ticks[|effects|], Adopted, |effects|, interval, retention);
            && |next| == |path| + 1
            && LinkOf(p, next[|path|], ticks, effects + [Adopted], begun, interval, retention)
            && Visits(next, |effects|)
            && Live(next, effects + [Adopted], begun)
  {
    hide Emitted, GroupGrowth, Snapshot, ValidRows;
    var p, next := path[|path| - 1], Continued(path, before, ticks[|effects|], Adopted, |effects|, interval, retention);
    KeptBefore(effects, Adopted, p.tick + 1, |effects|);
    assert next[|path|].tick == |effects|;
  }

  lemma LogStep(path: seq<Adoption>, log: seq<Sample>, before: State, after: State, t: Tick, effect: Effect, more: seq<Sample>, effects: seq<Effect>,
                begun: bool, interval: int, retention: int)
    requires path != [] && -1 <= path[|path| - 1].tick && EmittedOnPath(log, path) && StateFits(before, path, effects, begun)
    requires Ticked(before, after, t, effect, more, interval, retention)
    ensures EmittedOnPath(log + more, Continued(path, before, t, effect, |effects|, interval, retention))
  {
    if effect != Adopted {
      assert log + more == log;
    } else {
      hide GroupGrowth, Snapshot, ValidRows, Emitted, PathGrowth, Live, StartOf, Forgets;
      var p, next := path[|path| - 1], Continued(path, before, t, effect, |effects|, interval, retention);
      forall g, c: Counter
        ensures Emitted(log + more, g, c) == PathGrowth(next, g, c)
      {
        PathMore(path, next[|path|], g, c);
        EmittedOfConcat(log, more, g, c);
        EmittedNothing(g, c);
        TickGrowth(p, next[|path|], before, after, t, more, interval, retention, g, c, Live(path, effects, begun));
      }
    }
  }

  lemma TickGrowth(p: Adoption, next: Adoption, before: State, after: State, t: Tick, more: seq<Sample>, interval: int, retention: int, g: Group, c: Counter, live: bool)
    requires Ticked(before, after, t, Adopted, more, interval, retention)
    requires next.rows == t.source.rows && next.at == t.now && next.start == StartFor(before, t.now, interval, retention)
    requires if live then before.last == Some(p.at) && before.baseline == Snapshot(p.rows) else before.last == None
    ensures Emitted(more, g, c) == LinkGrowth(p, next, g)[c]
  {
    hide GroupGrowth, Snapshot, ValidRows;
    EmittedNothing(g, c);
  }

  lemma EmittedNothing(g: Group, c: Counter)
    ensures Emitted([], g, c) == 0
  {
  }

  // ---------- the whole run ----------

  /** The tick finds counters it can read. */
  ghost predicate Reads(t: Tick)
  {
    t.source.Readable? && ValidRows(t.source.rows)
  }

  /** The readings of a run, the one before it included, as far as they can be read. */
  ghost predicate IsReading(rows: seq<MetricRow>, first: Reading, ticks: seq<Tick>, i: int)
  {
    if i == -1 then rows == first.rows else 0 <= i < |ticks| && Reads(ticks[i]) && ticks[i].source == Readable(rows)
  }

  /** No row of the group starts anew or disappears from one reading to a later one. */
  ghost predicate TicksGoOn(first: Reading, ticks: seq<Tick>, g: Group)
  {
    forall i, j, r, s :: i < j && IsReading(r, first, ticks, i) && IsReading(s, first, ticks, j) ==> GoesOn(r, s, g)
  }

  /** The last reading of a run, adopted or not. */
  ghost function LatestTick(ticks: seq<Tick>): (i: int)
    ensures -1 <= i < |ticks| && (i >= 0 ==> Reads(ticks[i])) && forall j :: i < j < |ticks| ==> !Reads(ticks[j])
  {
    if ticks == [] then -1
    else if Reads(ticks[|ticks| - 1]) then |ticks| - 1
    else LatestTick(ticks[..|ticks| - 1])
  }

  ghost function LatestRows(first: Reading, ticks: seq<Tick>): seq<MetricRow>
  {
    if LatestTick(ticks) < 0 then first.rows else ticks[LatestTick(ticks)].source.rows
  }

  lemma {:induction false} PathFollowsTicks(path: seq<Adoption>, first: Reading, ticks: seq<Tick>, effects: seq<Effect>, begun: bool, interval: int,
                                            retention: int, k: nat)
    requires |effects| <= |ticks| && IsPath(path, first, ticks, effects, begun, interval, retention) && k < |path|
    ensures -1 <= path[k].tick < |effects| || k == 0
    ensures path[k].tick >= -1 && IsReading(path[k].rows, first, ticks, path[k].tick)
    ensures k > 0 ==> path[k - 1].tick < path[k].tick && ValidRows(path[k].rows)
  {
    if k > 0 {
      assert LinkOf(path[k - 1], path[k], ticks, effects, begun, interval, retention);
    }
  }

  lemma TicksMakePathGoOn(path: seq<Adoption>, first: Reading, ticks: seq<Tick>, effects: seq<Effect>, begun: bool, interval: int, retention: int, g: Group)
    requires |effects| <= |ticks| && IsPath(path, first, ticks, effects, begun, interval, retention) && TicksGoOn(first, ticks, g)
    ensures PathGoesOn(path, g)
  {
    forall k | 0 < k < |path|
      ensures GoesOn(path[k - 1].rows, path[k].rows, g) && ValidRows(path[k].rows)
    {
      PathFollowsTicks(path, first, ticks, effects, begun, interval, retention, k);
      PathFollowsTicks(path, first, ticks, effects, begun, interval, retention, k - 1);
    }
  }

  /** However a run goes, what it durably emits for a group whose rows go on is at most what the group grew from the
      first to the last reading. */
  lemma NoMoreThanGrowth(log: seq<Sample>, path: seq<Adoption>, first: Reading, ticks: seq<Tick>, effects: seq<Effect>, begun: bool,
                         interval: int, retention: int, g: Group, c: Counter)
    requires |effects| == |ticks| && IsPath(path, first, ticks, effects, begun, interval, retention)
    requires EmittedOnPath(log, path) && TicksGoOn(first, ticks, g)
    ensures Emitted(log, g, c) <= Level(LatestRows(first, ticks), g, c) - Level(first.rows, g, c)
  {
    hide Level, Emitted, PathGrowth, GoesOn, ValidRows, LinkOf;
    var n := |path| - 1;
    TicksMakePathGoOn(path, first, ticks, effects, begun, interval, retention, g);
    PathIsBounded(path, g, c, n);
    assert path[..n + 1] == path;
    PathFollowsTicks(path, first, ticks, effects, begun, interval, retention, n);
    LatestIsReading(first, ticks, path[n], g, c);
  }

  lemma LatestIsReading(first: Reading, ticks: seq<Tick>, p: Adoption, g: Group, c: Counter)
    requires TicksGoOn(first, ticks, g) && -1 <= p.tick < |ticks| && IsReading(p.rows, first, ticks, p.tick)
    ensures Level(p.rows, g, c) <= Level(LatestRows(first, ticks), g, c)
  {
    var i := LatestTick(ticks);
    assert IsReading(LatestRows(first, ticks), first, ticks, i);
    if p.tick < i {
      GrowthIsBounded(p.rows, LatestRows(first, ticks), g, 0, 0, c);
    }
  }

  /** What became of one tick: the state it began with, its report, the samples it durably emitted, and the state it
      left. */
  datatype Record = Record(before: State, status: Status, more: seq<Sample>, after: State)

  ghost predicate Explains(r: Record, t: Tick, effect: Effect, interval: int, retention: int)
  {
    && StatusIs(r.status, r.before, t, interval, retention)
    && effect == EffectOf(r.before, t, r.status, retention)
    && Ticked(r.before, r.after, t, effect, r.more, interval, retention)
    && Carried(r.before.outbox, r.after.outbox, r.more, t.acks)
  }

  ghost predicate Explained(effects: seq<Effect>, records: seq<Record>, ticks: seq<Tick>, interval: int, retention: int)
    requires |effects| == |records| <= |ticks|
  {
    forall i :: 0 <= i < |effects| ==> Explains(records[i], ticks[i], effects[i], interval, retention)
  }

  /** Each tick begins with the state the one before it left, from `first` to `last`. */
  ghost predicate Chained(records: seq<Record>, first: State, last: State)
  {
    && (if records == [] then first == last else records[0].before == first && records[|records| - 1].after == last)
    && forall i :: 0 < i < |records| ==> records[i].before == records[i - 1].after
  }

  /** All that was emitted, in order. */
  function LogOf(records: seq<Record>): seq<Sample>
  {
    if records == [] then [] else LogOf(records[..|records| - 1]) + records[|records| - 1].more
  }

  /** Any run.  The samples in the outbox are the ones that were there and the ones emitted, those acknowledged
      excepted.  What was emitted counts, for every group, the growth along the adopted readings: if its rows go on, at
      most what the group grew, and on every stretch of bounded intervals exactly that. */
  method RunTicks(c: Collector, first: Reading, ticks: seq<Tick>)
    returns (ghost log: seq<Sample>, ghost path: seq<Adoption>, ghost effects: seq<Effect>, ghost records: seq<Record>)
    requires c.Valid() && forall i :: 0 <= i < |ticks| ==> |ticks[i].ids| >= MAX_GROUPS
    requires c.state.last.Some? ==> c.state.last == Some(first.at) && c.state.baseline == Snapshot(first.rows)
    modifies c
    ensures c.Valid() && |effects| == |records| == |ticks| && Explained(effects, records, ticks, c.interval, c.retention)
    ensures Chained(records, old(c.state), c.state) && log == LogOf(records)
    ensures IsPath(path, first, ticks, effects, old(c.state).last.Some?, c.interval, c.retention) && EmittedOnPath(log, path)
    ensures forall g, k: Counter :: TicksGoOn(first, ticks, g) ==> Emitted(log, g, k) <= Level(LatestRows(first, ticks), g, k) - Level(first.rows, g, k)
    ensures forall g, k: Counter, i, j :: TicksGoOn(first, ticks, g) && Proven(path, g, i, j) ==>
              EmittedBetween(path, g, k, i, j) == Level(path[j].rows, g, k) - Level(path[i].rows, g, k)
    ensures CarriedOver(old(c.state.outbox), c.state.outbox, log, ticks)
  {
    hide *;
    LastIsSuccess(c);
    ghost var begun := c.state.last.Some?;
    log, path, effects, records := [], [Adoption(first.rows, first.at, None, -1)], [], [];
    PathBegins(c.state, first, ticks, begun, c.interval, c.retention);
    for i := 0 to |ticks|
      invariant c.Valid() && |effects| == |records| == i && Explained(effects, records, ticks, c.interval, c.retention)
      invariant Chained(records, old(c.state), c.state) && log == LogOf(records)
      invariant IsPath(path, first, ticks, effects, begun, c.interval, c.retention)
      invariant path != [] && -1 <= path[|path| - 1].tick < i
      invariant StateFits(c.state, path, effects, begun) && EmittedOnPath(log, path)
      invariant CarriedOver(old(c.state.outbox), c.state.outbox, log, ticks[..i])
    {
      ghost var before, more := c.state, [];
      var status;
      status, more := OneTick(c, ticks[i]);
      ghost var effect := EffectOf(before, ticks[i], status, c.retention);
      PathStep(path, first, ticks, effects, begun, c.interval, c.retention, before, c.state, effect, more);
      LogStep(path, log, before, c.state, ticks[i], effect, more, effects, begun, c.interval, c.retention);
      ghost var record := Record(before, status, more, c.state);
      ExplainedMore(effects, effect, records, record, old(c.state), ticks, c.interval, c.retention);
      CarriedFurther(old(c.state.outbox), before.outbox, c.state.outbox, log, more, ticks, i);
      records := records + [record];
      path, effects, log := Continued(path, before, ticks[i], effect, i, c.interval, c.retention), effects + [effect], log + more;
    }
    assert ticks[..|ticks|] == ticks;
    RunIsAccounted(log, path, first, ticks, effects, begun, c.interval, c.retention);
  }

  lemma LastIsSuccess(c: Collector)
    requires c.Valid()
    ensures c.state.last.Some? ==> c.state.lastSuccess == c.state.last
  {
  }

  lemma PathBegins(s: State, first: Reading, ticks: seq<Tick>, begun: bool, interval: int, retention: int)
    requires begun == s.last.Some?
    requires s.last.Some? ==> s.last == s.lastSuccess == Some(first.at) && s.baseline == Snapshot(first.rows)
    ensures var path := [Adoption(first.rows, first.at, None, -1)];
            && IsPath(path, first, ticks, [], begun, interval, retention) && StateFits(s, path, [], begun) && EmittedOnPath([], path)
    ensures Explained([], [], ticks, interval, retention) && Chained([], s, s) && LogOf([]) == []
    ensures CarriedOver(s.outbox, s.outbox, [], [])
    ensures forall id :: !Acknowledged([], id)
  {
    forall g, c: Counter
      ensures Emitted([], g, c) == 0
    {
      EmittedNothing(g, c);
    }
  }

  lemma RunIsAccounted(log: seq<Sample>, path: seq<Adoption>, first: Reading, ticks: seq<Tick>, effects: seq<Effect>, begun: bool,
                       interval: int, retention: int)
    requires |effects| == |ticks| && IsPath(path, first, ticks, effects, begun, interval, retention) && EmittedOnPath(log, path)
    ensures forall g, k: Counter :: TicksGoOn(first, ticks, g) ==> Emitted(log, g, k) <= Level(LatestRows(first, ticks), g, k) - Level(first.rows, g, k)
    ensures forall g, k: Counter, i, j :: TicksGoOn(first, ticks, g) && Proven(path, g, i, j) ==>
              EmittedBetween(path, g, k, i, j) == Level(path[j].rows, g, k) - Level(path[i].rows, g, k)
  {
    hide PathGrowth, EmittedBetween, Emitted, Level, LatestRows, Proves, PathGoesOn, TicksGoOn, IsPath, EmittedOnPath;
    forall g, k: Counter | TicksGoOn(first, ticks, g)
      ensures Emitted(log, g, k) <= Level(LatestRows(first, ticks), g, k) - Level(first.rows, g, k)
    {
      NoMoreThanGrowth(log, path, first, ticks, effects, begun, interval, retention, g, k);
    }
    forall g, k: Counter, i, j | TicksGoOn(first, ticks, g) && Proven(path, g, i, j)
      ensures EmittedBetween(path, g, k, i, j) == Level(path[j].rows, g, k) - Level(path[i].rows, g, k)
    {
      TicksMakePathGoOn(path, first, ticks, effects, begun, interval, retention, g);
      StretchIsExact(path, g, k, i, j);
    }
  }

  lemma ExplainedMore(effects: seq<Effect>, effect: Effect, records: seq<Record>, record: Record, first: State, ticks: seq<Tick>, interval: int, retention: int)
    requires |effects| == |records| < |ticks| && Explained(effects, records, ticks, interval, retention)
    requires StatusIs(record.status, record.before, ticks[|effects|], interval, retention)
    requires effect == EffectOf(record.before, ticks[|effects|], record.status, retention)
    requires Ticked(record.before, record.after, ticks[|effects|], effect, record.more, interval, retention)
    requires Carried(record.before.outbox, record.after.outbox, record.more, ticks[|effects|].acks)
    requires Chained(records, first, record.before)
    ensures Explained(effects + [effect], records + [record], ticks, interval, retention)
    ensures Chained(records + [record], first, record.after) && LogOf(records + [record]) == LogOf(records) + record.more
  {
    hide StatusIs, EffectOf, Ticked, Carried;
    assert (records + [record])[..|records|] == records;
  }

  /** The same for a whole run. */
  ghost predicate CarriedOver(before: seq<Sample>, after: seq<Sample>, log: seq<Sample>, ticks: seq<Tick>)
  {
    && (forall s :: s in after ==> s in before || s in log)
    && (forall s :: s in before || s in log ==> s in after || Acknowledged(ticks, s.id))
  }

  lemma CarriedFurther(first: seq<Sample>, before: seq<Sample>, after: seq<Sample>, log: seq<Sample>, more: seq<Sample>, ticks: seq<Tick>, i: nat)
    requires i < |ticks| && CarriedOver(first, before, log, ticks[..i]) && Carried(before, after, more, ticks[i].acks)
    ensures CarriedOver(first, after, log + more, ticks[..i + 1])
  {
    hide Acknowledged;
    MoreAcknowledged(ticks, i);
  }

  predicate Acknowledged(ticks: seq<Tick>, id: SampleId)
  {
    exists i :: 0 <= i < |ticks| && id in ticks[i].acks
  }

  lemma MoreAcknowledged(ticks: seq<Tick>, i: nat)
    requires i < |ticks|
    ensures forall id :: Acknowledged(ticks[..i + 1], id) <==> Acknowledged(ticks[..i], id) || id in ticks[i].acks
  {
    assert ticks[..i + 1] == ticks[..i] + [ticks[i]];
    forall id
      ensures Acknowledged(ticks[..i + 1], id) <==> Acknowledged(ticks[..i], id) || id in ticks[i].acks
    {
      if Acknowledged(ticks[..i], id) {
        var j :| 0 <= j < i && id in ticks[..i][j].acks;
        assert ticks[..i + 1][j] == ticks[..i][j];
      }
      assert ticks[..i + 1][i] == ticks[i];
    }
  }
}
