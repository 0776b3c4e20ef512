/** The usage collector, agent/helpers/hermes_collector.py: it turns cumulative counters into samples of
their growth and keeps them in an outbox until they are acknowledged.  Quota handling is left out. */
module Collector {
  import opened Samples

  const MAX_OUTBOX: int := 4096
  const MAX_GROUPS: int := 256
  const MINUTE: int := 60_000_000

  datatype Option<T> = None | Some(value: T)

  // ---------- counters ----------

  /** The six counters of a row: calls, input, output, cache read, cache write and reasoning tokens. */
  type Counters = s: seq<int> | |s| == 6 witness [0, 0, 0, 0, 0, 0]

  const NOTHING: Counters := [0, 0, 0, 0, 0, 0]

  function Plus(a: Counters, b: Counters): Counters
  {
    seq(6, i requires 0 <= i < 6 => a[i] + b[i])
  }

  function Minus(a: Counters, b: Counters): Counters
  {
    seq(6, i requires 0 <= i < 6 => a[i] - b[i])
  }

  /** No counter of `a` is above that of `b`. */
  predicate AtMost(a: Counters, b: Counters)
  {
    forall i :: 0 <= i < 6 ==> a[i] <= b[i]
  }

  predicate Exact(a: Counters)
  {
    forall i :: 0 <= i < 6 ==> 0 <= a[i] <= MAX_SAFE_INTEGER
  }

  lemma PlusLaws(a: Counters, b: Counters, c: Counters)
    ensures Plus(a, NOTHING) == a && Plus(NOTHING, a) == a && Minus(a, a) == NOTHING
    ensures Plus(Plus(a, b), c) == Plus(a, Plus(b, c)) && Plus(a, b) == Plus(b, a)
  {
  }

  // ---------- what is read ----------

  datatype RowKey = RowKey(session: string, model: string, provider: string, baseUrl: string, mode: string, task: string)

  /** A row of the metric query; `integral` says that its counters are integers. */
  datatype MetricRow = MetricRow(key: RowKey, counts: Counters, integral: bool, rewind: int, firstSeen: int)

  datatype Source = Unreadable | Readable(rows: seq<MetricRow>)

  datatype Group = Group(model: string, provider: string, mode: string, task: string)

  predicate IdentifierChar(c: char)
  {
    'A' <= c <= 'Z' || 'a' <= c <= 'z' || '0' <= c <= '9' || c in "_.:/-"
  }

  /** A dimension that is empty, too long or oddly spelled is reported as unknown. */
  function Identifier(value: string): string
  {
    if 1 <= |value| <= 128 && forall c :: c in value ==> IdentifierChar(c) then value else "unknown"
  }

  function GroupOf(key: RowKey): Group
  {
    Group(Identifier(key.model), Identifier(key.provider), Identifier(key.mode), Identifier(if key.task == "" then "main" else key.task))
  }

  /** The last counters of a row, with what identifies its origin. */
  datatype Mark = Mark(counts: Counters, rewind: int, firstSeen: int)
  type Baseline = map<RowKey, Mark>

  function MarkOf(row: MetricRow): Mark
  {
    Mark(row.counts, row.rewind, row.firstSeen)
  }

  function Snapshot(rows: seq<MetricRow>): Baseline
  {
    if rows == [] then map[] else Snapshot(rows[..|rows| - 1])[rows[|rows| - 1].key := MarkOf(rows[|rows| - 1])]
  }

  // ---------- growth ----------

  datatype Growth = Reset | Grown(amount: Counters)

  /** How much a row grew since the baseline, when that can be told. */
  function GrowthOf(previous: Baseline, row: MetricRow, start: int, now: int): Growth
  {
    if row.key !in previous then
      if start <= row.firstSeen <= now then Grown(row.counts) else Reset
    else
      var mark := previous[row.key];
      if mark.firstSeen != row.firstSeen || mark.rewind != row.rewind || !AtMost(mark.counts, row.counts) then Reset
      else Grown(Minus(row.counts, mark.counts))
  }

  /** What a row of group `h` contributes to group `g`. */
  function Part<G(==)>(h: G, growth: Growth, g: G): Counters
  {
    if h == g && growth.Grown? then growth.amount else NOTHING
  }

  function ResetPart<G(==)>(h: G, growth: Growth, g: G): nat
  {
    if h == g && growth.Reset? then 1 else 0
  }

  function Contribution(previous: Baseline, row: MetricRow, g: Group, start: int, now: int): Counters
  {
    Part(GroupOf(row.key), GrowthOf(previous, row, start, now), g)
  }

  function ResetCount(previous: Baseline, row: MetricRow, g: Group, start: int, now: int): nat
  {
    ResetPart(GroupOf(row.key), GrowthOf(previous, row, start, now), g)
  }

  /** The growth of all rows of a group. */
  function GroupGrowth(previous: Baseline, rows: seq<MetricRow>, g: Group, start: int, now: int): Counters
  {
    if rows == [] then NOTHING
    else Plus(GroupGrowth(previous, rows[..|rows| - 1], g, start, now), Contribution(previous, rows[|rows| - 1], g, start, now))
  }

  function GroupResets(previous: Baseline, rows: seq<MetricRow>, g: Group, start: int, now: int): nat
  {
    if rows == [] then 0
    else GroupResets(previous, rows[..|rows| - 1], g, start, now) + ResetCount(previous, rows[|rows| - 1], g, start, now)
  }

  function GroupsOf(rows: seq<MetricRow>): set<Group>
  {
    set row | row in rows :: GroupOf(row.key)
  }

  /** The previous sample bounds the interval only when it is recent enough. */
  function StartOf(last: Option<int>, now: int, interval: int): Option<int>
  {
    match last
    case None => None
    case Some(s) => if 0 < now - s && (now - s <= MINUTE || now - s <= 3 * interval) then last else None
  }

  predicate ValidRows(rows: seq<MetricRow>)
  {
    forall row :: row in rows ==> row.integral && Exact(row.counts)
  }

  /** The dictionaries of the loop: growth and resets per group. */
  datatype Tallies<G> = Tallies(groups: map<G, Counters>, resets: map<G, nat>)
  {
    function Counts(g: G): Counters
    {
      if g in groups then groups[g] else NOTHING
    }

    function Resets(g: G): nat
    {
      if g in resets then resets[g] else 0
    }

    /** Count one more row. */
    function Tally(g: G, growth: Growth): Tallies<G>
    {
      match growth
      case Reset => Tallies(groups[g := Counts(g)], resets[g := Resets(g) + 1])
      case Grown(amount) => this.(groups := groups[g := Plus(Counts(g), amount)])
    }
  }

  lemma TallyResets<G>(t: Tallies<G>, h: G, growth: Growth, g: G)
    ensures g in t.Tally(h, growth).groups <==> g in t.groups || g == h
    ensures t.Tally(h, growth).Resets(g) == t.Resets(g) + ResetPart(h, growth, g)
  {
    match growth
    case Reset =>
    case Grown(_) =>
  }

  lemma TallyCounts<G>(t: Tallies<G>, h: G, growth: Growth, g: G)
    ensures t.Tally(h, growth).Counts(g) == Plus(t.Counts(g), Part(h, growth, g))
  {
    PlusLaws(t.Counts(g), NOTHING, NOTHING);
    match growth
    case Reset =>
      assert t.Tally(h, growth).Counts(g) == t.Counts(g);
      assert Part(h, growth, g) == NOTHING;
    case Grown(amount) =>
      if h != g {
        assert t.Tally(h, growth).Counts(g) == t.Counts(g);
        assert Part(h, growth, g) == NOTHING;
      }
  }

  datatype Aggregate = Invalid | Aggregate(baseline: Baseline, tallies: Tallies<Group>)

  /** One group's tallies are those of the rows so far. */
  ghost predicate Tallied(t: Tallies<Group>, previous: Baseline, rows: seq<MetricRow>, g: Group, start: int, now: int)
  {
    && (g in t.groups <==> g in GroupsOf(rows))
    && t.Counts(g) == GroupGrowth(previous, rows, g, start, now)
    && t.Resets(g) == GroupResets(previous, rows, g, start, now)
    && (g in t.resets ==> g in t.groups && t.resets[g] > 0)
  }

  ghost predicate AllTallied(t: Tallies<Group>, previous: Baseline, rows: seq<MetricRow>, start: int, now: int)
  {
    forall g :: Tallied(t, previous, rows, g, start, now)
  }

  ghost predicate Aggregated(a: Aggregate, previous: Baseline, rows: seq<MetricRow>, start: Option<int>, now: int)
  {
    && a.Aggregate?
    && a.baseline == Snapshot(rows)
    && match start
       case None => a.tallies == Tallies(map[], map[])
       case Some(s) => AllTallied(a.tallies, previous, rows, s, now)
  }

  lemma OneMoreRow(previous: Baseline, rows: seq<MetricRow>, i: nat, g: Group, start: int, now: int)
    requires i < |rows|
    ensures GroupGrowth(previous, rows[..i + 1], g, start, now)
         == Plus(GroupGrowth(previous, rows[..i], g, start, now), Contribution(previous, rows[i], g, start, now))
    ensures GroupResets(previous, rows[..i + 1], g, start, now)
         == GroupResets(previous, rows[..i], g, start, now) + ResetCount(previous, rows[i], g, start, now)
    ensures g in GroupsOf(rows[..i + 1]) <==> g in GroupsOf(rows[..i]) || g == GroupOf(rows[i].key)
    ensures Snapshot(rows[..i + 1]) == Snapshot(rows[..i])[rows[i].key := MarkOf(rows[i])]
  {
    assert rows[..i + 1][..i] == rows[..i] && rows[..i + 1] == rows[..i] + [rows[i]];
  }

  lemma TallyStepFor(t: Tallies<Group>, previous: Baseline, rows: seq<MetricRow>, i: nat, h: Group, growth: Growth, g: Group, start: int, now: int)
    requires i < |rows| && Tallied(t, previous, rows[..i], g, start, now)
    requires h == GroupOf(rows[i].key) && growth == GrowthOf(previous, rows[i], start, now)
    ensures Tallied(t.Tally(h, growth), previous, rows[..i + 1], g, start, now)
  {
    OneMoreRow(previous, rows, i, g, start, now);
    TallyResets(t, h, growth, g);
    TallyCounts(t, h, growth, g);
  }

  lemma TallyStep(t: Tallies<Group>, previous: Baseline, rows: seq<MetricRow>, i: nat, start: int, now: int)
    requires i < |rows| && AllTallied(t, previous, rows[..i], start, now)
    ensures AllTallied(t.Tally(GroupOf(rows[i].key), GrowthOf(previous, rows[i], start, now)), previous, rows[..i + 1], start, now)
  {
    var h, growth, seen := GroupOf(rows[i].key), GrowthOf(previous, rows[i], start, now), rows[..i + 1];
    forall g
      ensures Tallied(t.Tally(h, growth), previous, seen, g, start, now)
    {
      TallyStepFor(t, previous, rows, i, h, growth, g, start, now);
    }
  }

  lemma NextRow(a: Aggregate, previous: Baseline, rows: seq<MetricRow>, i: nat, start: Option<int>, now: int)
    requires i < |rows| && Aggregated(a, previous, rows[..i], start, now)
    ensures a.Aggregate?
    ensures var row := rows[i];
            var tallies := match start case None => a.tallies case Some(s) => a.tallies.Tally(GroupOf(row.key), GrowthOf(previous, row, s, now));
            Aggregated(Aggregate(a.baseline[row.key := MarkOf(row)], tallies), previous, rows[..i + 1], start, now)
  {
    hide AllTallied, Snapshot, GroupsOf, GroupGrowth, GroupResets, GrowthOf, Contribution, ResetCount;
    OneMoreRow(previous, rows, i, GroupOf(rows[i].key), 0, now);
    if start.Some? {
      TallyStep(a.tallies, previous, rows, i, start.value, now);
    }
  }

  lemma RowsAreValid(rows: seq<MetricRow>, i: nat)
    requires i < |rows|
    ensures ValidRows(rows[..i + 1]) <==> ValidRows(rows[..i]) && rows[i].integral && Exact(rows[i].counts)
    ensures ValidRows(rows) ==> ValidRows(rows[..i + 1])
  {
    hide Exact;
    assert rows[..i + 1] == rows[..i] + [rows[i]];
  }

  /** The loop over the rows: the new baseline, and per group the growth and the resets. */
  method AggregateRows(previous: Baseline, rows: seq<MetricRow>, start: Option<int>, now: int) returns (a: Aggregate)
    ensures a.Invalid? <==> !ValidRows(rows)
    ensures a.Aggregate? ==> Aggregated(a, previous, rows, start, now)
  {
    a := Aggregate(map[], Tallies(map[], map[]));
    assert ValidRows(rows[..0]) && Aggregated(a, previous, rows[..0], start, now);
    for i := 0 to |rows|
      invariant ValidRows(rows[..i]) && Aggregated(a, previous, rows[..i], start, now)
    {
      hide *;
      var row := rows[i];
      RowsAreValid(rows, i);
      if !row.integral || !Exact(row.counts) {
        return Invalid;
      }
      NextRow(a, previous, rows, i, start, now);
      var tallies := a.tallies;
      if start.Some? {
        tallies := tallies.Tally(GroupOf(row.key), GrowthOf(previous, row, start.value, now));
      }
      a := Aggregate(a.baseline[row.key := MarkOf(row)], tallies);
    }
    assert rows[..|rows|] == rows;
  }

  // ---------- the collector ----------

  /** state.json. */
  datatype State = State(baseline: Baseline, last: Option<int>, lastSuccess: Option<int>, outbox: seq<Sample>)

  datatype Status = Disabled | Stale | Unavailable | Collecting | NoUsage

  function SampleOf(g: Group, counts: Counters, resets: nat, start: int, now: int, id: SampleId): Sample
  {
    Sample(id, start, now, g.model, g.provider, g.mode, g.task,
           counts[0], counts[1], counts[2], counts[3], counts[4], counts[5],
           if resets == 0 then Proven else Broken, resets)
  }

  predicate Pending(outbox: seq<Sample>, id: SampleId)
  {
    exists s :: s in outbox && s.id == id
  }

  function Unacknowledged(outbox: seq<Sample>, acks: set<SampleId>): (r: seq<Sample>)
    ensures forall s :: s in r <==> s in outbox && s.id !in acks
    ensures |r| <= |outbox|
  {
    if outbox == [] then []
    else
      var s := outbox[|outbox| - 1];
      Unacknowledged(outbox[..|outbox| - 1], acks) + if s.id in acks then [] else [s]
  }

  /** The groups are too many or one of them has grown beyond what a report can carry. */
  predicate TooLarge(t: Tallies<Group>)
  {
    |t.groups| > MAX_GROUPS || exists g :: g in t.groups && OutOfRange(t.groups[g])
  }

  /** The rows of a tick cannot be turned into samples. */
  ghost predicate Unmeasurable(previous: Baseline, source: Source, start: Option<int>, now: int)
  {
    source.Unreadable? || !ValidRows(source.rows) || (start.Some? && Excessive(previous, source.rows, start.value, now))
  }

  ghost predicate Excessive(previous: Baseline, rows: seq<MetricRow>, start: int, now: int)
  {
    |GroupsOf(rows)| > MAX_GROUPS || exists g :: g in GroupsOf(rows) && OutOfRange(GroupGrowth(previous, rows, g, start, now))
  }

  predicate OutOfRange(counts: Counters)
  {
    exists i :: 0 <= i < 6 && counts[i] > MAX_SAFE_INTEGER
  }

  /** How many samples a tick would add. */
  ghost function Demand(source: Source, start: Option<int>): nat
  {
    if source.Readable? && start.Some? then |GroupsOf(source.rows)| else 0
  }

  lemma TooLargeIsExcessive(t: Tallies<Group>, previous: Baseline, rows: seq<MetricRow>, start: int, now: int)
    requires AllTallied(t, previous, rows, start, now)
    ensures t.groups.Keys == GroupsOf(rows) && |t.groups| == |GroupsOf(rows)|
    ensures TooLarge(t) <==> Excessive(previous, rows, start, now)
  {
    forall g
      ensures g in t.groups <==> g in GroupsOf(rows)
      ensures t.Counts(g) == GroupGrowth(previous, rows, g, start, now)
    {
      assert Tallied(t, previous, rows, g, start, now);
    }
    assert t.groups.Keys == GroupsOf(rows);
  }

  /** The samples of one tick: one for each group, with its growth and its resets. */
  ghost predicate Emission(samples: seq<Sample>, order: seq<Group>, previous: Baseline, rows: seq<MetricRow>, start: Option<int>, now: int, ids: seq<SampleId>)
    requires |samples| <= |ids|
  {
    match start
    case None => samples == [] && order == []
    case Some(s) =>
      && |order| == |samples|
      && (forall g :: g in order <==> g in GroupsOf(rows))
      && (forall i, j :: 0 <= i < j < |order| ==> order[i] != order[j])
      && forall i :: 0 <= i < |samples| ==>
           samples[i] == SampleOf(order[i], GroupGrowth(previous, rows, order[i], s, now), GroupResets(previous, rows, order[i], s, now), s, now, ids[i])
  }

  /** One sample per group, in some order, each under a new id. */
  method Emit(t: Tallies<Group>, start: int, now: int, ids: seq<SampleId>) returns (samples: seq<Sample>, order: seq<Group>)
    requires |t.groups| <= |ids|
    ensures |order| == |samples| == |t.groups|
    ensures forall g :: g in order <==> g in t.groups
    ensures forall i, j :: 0 <= i < j < |order| ==> order[i] != order[j]
    ensures forall i :: 0 <= i < |samples| ==> samples[i] == SampleOf(order[i], t.Counts(order[i]), t.Resets(order[i]), start, now, ids[i])
  {
    samples, order := [], [];
    var todo := t.groups.Keys;
    while todo != {}
      invariant todo <= t.groups.Keys && |order| == |samples| && |samples| + |todo| == |t.groups|
      invariant forall g :: g in order <==> g in t.groups && g !in todo
      invariant forall i, j :: 0 <= i < j < |order| ==> order[i] != order[j]
      invariant forall i :: 0 <= i < |samples| ==> samples[i] == SampleOf(order[i], t.Counts(order[i]), t.Resets(order[i]), start, now, ids[i])
    {
      var g :| g in todo;
      samples := samples + [SampleOf(g, t.Counts(g), t.Resets(g), start, now, ids[|samples|])];
      order, todo := order + [g], todo - {g};
    }
  }

  datatype Sampling = Fails | NoRoom | Taken(baseline: Baseline, samples: seq<Sample>, active: bool)

  /** Read the rows and turn their growth into samples. */
  method TakeSamples(previous: Baseline, source: Source, start: Option<int>, now: int, room: int, ids: seq<SampleId>) returns (r: Sampling, ghost order: seq<Group>)
    requires |ids| >= MAX_GROUPS && room >= 0
    ensures r.Fails? <==> Unmeasurable(previous, source, start, now)
    ensures r.NoRoom? <==> !Unmeasurable(previous, source, start, now) && Demand(source, start) > room
    ensures r.Taken? ==>
      && source.Readable? && ValidRows(source.rows) && |r.samples| <= |ids| && |r.samples| <= room
      && r.baseline == Snapshot(source.rows)
      && Emission(r.samples, order, previous, source.rows, start, now, ids)
      && (r.active <==> Busy(r.samples))
  {
    order := [];
    if source.Unreadable? {
      return Fails, order;
    }
    var a := AggregateRows(previous, source.rows, start, now);
    if a.Aggregate? && start.Some? {
      TooLargeIsExcessive(a.tallies, previous, source.rows, start.value, now);
    }
    if a.Invalid? || TooLarge(a.tallies) {
      return Fails, order;
    }
    if |a.tallies.groups| > room {
      return NoRoom, order;
    }
    var samples := [];
    if start.Some? {
      ghost var g: seq<Group>;
      samples, g := Emit(a.tallies, start.value, now, ids);
      order := g;
      TalliesEmitted(a.tallies, samples, order, previous, source.rows, start.value, now, ids);
      BusyTallies(a.tallies, samples, order, previous, source.rows, start.value, now, ids);
    }
    r := Taken(a.baseline, samples, a.tallies.resets != map[] || exists g :: g in a.tallies.groups && a.tallies.groups[g] != NOTHING);
  }

  lemma TalliesEmitted(t: Tallies<Group>, samples: seq<Sample>, order: seq<Group>, previous: Baseline, rows: seq<MetricRow>, start: int, now: int, ids: seq<SampleId>)
    requires AllTallied(t, previous, rows, start, now) && |order| == |samples| <= |ids|
    requires forall g :: g in order <==> g in t.groups
    requires forall i, j :: 0 <= i < j < |order| ==> order[i] != order[j]
    requires forall i :: 0 <= i < |samples| ==> samples[i] == SampleOf(order[i], t.Counts(order[i]), t.Resets(order[i]), start, now, ids[i])
    ensures Emission(samples, order, previous, rows, Some(start), now, ids)
  {
    forall g
      ensures g in t.groups <==> g in GroupsOf(rows)
      ensures t.Counts(g) == GroupGrowth(previous, rows, g, start, now) && t.Resets(g) == GroupResets(previous, rows, g, start, now)
    {
      assert Tallied(t, previous, rows, g, start, now);
    }
  }

  // ---------- what is measured ----------

  /** A name as the panel takes it: 1 to 128 letters, digits and some punctuation; other texts are unknown. */
  ghost predicate Named(name: string, text: string)
  {
    var plain := 1 <= |text| <= 128 && forall c :: c in text ==>
      || 'a' <= c <= 'z' || 'A' <= c <= 'Z' || '0' <= c <= '9'
      || c == '_' || c == '.' || c == ':' || c == '/' || c == '-';
    name == if plain then text else "unknown"
  }

  lemma IdentifierIsNamed(text: string)
    ensures Named(Identifier(text), text)
  {
  }

  /** A group has the names of its rows' model, provider, mode and task, and the task is main if it is not stated. */
  lemma GroupMeans(key: RowKey)
    ensures var g := GroupOf(key);
            && Named(g.model, key.model) && Named(g.provider, key.provider) && Named(g.mode, key.mode)
            && (if key.task == "" then g.task == "main" else Named(g.task, key.task))
  {
    IdentifierIsNamed(key.model);
    IdentifierIsNamed(key.provider);
    IdentifierIsNamed(key.mode);
    IdentifierIsNamed(key.task);
    assert Identifier("main") == "main";
    hide Named, Identifier;
  }

  /** An interval is bounded by the last sample if that is not more than a minute or three sampling intervals old. */
  lemma StartMeans(last: Option<int>, now: int, interval: int)
    ensures StartOf(last, now, interval) == last <==>
              last == None || (last.value < now && now <= last.value + if 3 * interval > 60_000_000 then 3 * interval else 60_000_000)
    ensures StartOf(last, now, interval) == last || StartOf(last, now, interval) == None
  {
  }

  /** A row is read exactly if its counters are integers from 0 to 2^53 - 1. */
  ghost predicate ReadExactly(row: MetricRow)
  {
    row.integral && forall i :: 0 <= i < 6 ==> 0 <= row.counts[i] <= 9007199254740991
  }

  /** The group of the row has gained more than 2^53 - 1 in a counter. */
  ghost predicate Outgrown(previous: Baseline, rows: seq<MetricRow>, row: MetricRow, start: int, now: int)
  {
    exists i :: 0 <= i < 6 && Gain(previous, rows, GroupOf(row.key), start, now, i) > 9007199254740991
  }

  /** The rows cannot be measured if they cannot be read, if one is not read exactly, if there are more than 256 groups or if
      one of these has gained too much. */
  lemma UnmeasurableMeans(previous: Baseline, source: Source, start: int, now: int)
    ensures Unmeasurable(previous, source, Some(start), now) <==>
              || source.Unreadable?
              || (exists row :: row in source.rows && !ReadExactly(row))
              || |GroupsOf(source.rows)| > 256
              || (exists row :: row in source.rows && Outgrown(previous, source.rows, row, start, now))
  {
    if source.Readable? {
      var rows := source.rows;
      ValidRowsMean(rows);
      forall row
        ensures Outgrown(previous, rows, row, start, now) <==> OutOfRange(GroupGrowth(previous, rows, GroupOf(row.key), start, now))
      {
        OutgrownMeans(previous, rows, row, start, now);
      }
      hide ReadExactly, Outgrown, ValidRows, OutOfRange, GroupGrowth, GroupOf;
      if g :| g in GroupsOf(rows) && OutOfRange(GroupGrowth(previous, rows, g, start, now)) {
        var row :| row in rows && GroupOf(row.key) == g;
        assert Outgrown(previous, rows, row, start, now);
      }
      if row :| row in rows && Outgrown(previous, rows, row, start, now) {
        assert GroupOf(row.key) in GroupsOf(rows);
      }
    }
  }

  lemma ValidRowsMean(rows: seq<MetricRow>)
    ensures ValidRows(rows) <==> forall row :: row in rows ==> ReadExactly(row)
  {
    forall row: MetricRow
      ensures ReadExactly(row) <==> row.integral && Exact(row.counts)
    {
    }
    hide ReadExactly, Exact;
  }

  lemma OutgrownMeans(previous: Baseline, rows: seq<MetricRow>, row: MetricRow, start: int, now: int)
    ensures Outgrown(previous, rows, row, start, now) <==> OutOfRange(GroupGrowth(previous, rows, GroupOf(row.key), start, now))
  {
    hide Gain, GroupGrowth, GroupOf;
    var g := GroupOf(row.key);
    forall i | 0 <= i < 6
      ensures GroupGrowth(previous, rows, g, start, now)[i] == Gain(previous, rows, g, start, now, i)
    {
      GainIsGrowth(previous, rows, g, start, now, i);
    }
  }

  // ---------- what a sample says ----------

  function NameOf(s: Sample): Group
  {
    Group(s.model, s.provider, s.billingMode, s.task)
  }

  function CountsOf(s: Sample): Counters
  {
    [s.calls, s.input, s.output, s.cacheRead, s.cacheWrite, s.reasoning]
  }

  /** It can be told how the row came to its counters: it goes on from where it was, or it is new and was first seen in
      the interval. */
  predicate Told(previous: Baseline, row: MetricRow, start: int, now: int)
  {
    if row.key in previous then
      && row.firstSeen == previous[row.key].firstSeen && row.rewind == previous[row.key].rewind
      && forall i :: 0 <= i < 6 ==> previous[row.key].counts[i] <= row.counts[i]
    else
      start <= row.firstSeen <= now
  }

  /** What the rows of a group have gained, as far as it can be told. */
  function Gain(previous: Baseline, rows: seq<MetricRow>, g: Group, start: int, now: int, i: nat): int
    requires i < 6
  {
    if rows == [] then 0
    else
      var row := rows[|rows| - 1];
      Gain(previous, rows[..|rows| - 1], g, start, now, i) +
      if GroupOf(row.key) == g && Told(previous, row, start, now)
      then row.counts[i] - (if row.key in previous then previous[row.key].counts[i] else 0)
      else 0
  }

  /** The places of the rows of a group of which it cannot be told. */
  ghost function Untold(previous: Baseline, rows: seq<MetricRow>, g: Group, start: int, now: int): set<int>
  {
    set k | 0 <= k < |rows| && GroupOf(rows[k].key) == g && !Told(previous, rows[k], start, now)
  }

  ghost predicate AllTold(previous: Baseline, rows: seq<MetricRow>, g: Group, start: int, now: int)
  {
    forall row :: row in rows && GroupOf(row.key) == g ==> Told(previous, row, start, now)
  }

  /** What a sample says of the rows of its group: when they were counted, what they gained, that this is all, or of how
      many of them it cannot be told. */
  ghost predicate Reports(s: Sample, previous: Baseline, rows: seq<MetricRow>, start: int, now: int)
  {
    var g := NameOf(s);
    && s.started == start && s.ended == now
    && (exists row :: row in rows && GroupOf(row.key) == g)
    && (forall i :: 0 <= i < 6 ==> CountsOf(s)[i] == Gain(previous, rows, g, start, now, i))
    && s.resets == |Untold(previous, rows, g, start, now)|
    && s.coverage == if AllTold(previous, rows, g, start, now) then Coverage.Proven else Coverage.Broken
  }

  lemma {:induction false} GainIsGrowth(previous: Baseline, rows: seq<MetricRow>, g: Group, start: int, now: int, i: nat)
    requires i < 6
    ensures GroupGrowth(previous, rows, g, start, now)[i] == Gain(previous, rows, g, start, now, i)
  {
    if rows != [] {
      GainIsGrowth(previous, rows[..|rows| - 1], g, start, now, i);
    }
  }

  lemma ToldIsGrown(previous: Baseline, row: MetricRow, g: Group, start: int, now: int)
    ensures ResetCount(previous, row, g, start, now) == if GroupOf(row.key) == g && !Told(previous, row, start, now) then 1 else 0
  {
  }

  lemma UntoldMore(previous: Baseline, rows: seq<MetricRow>, row: MetricRow, g: Group, start: int, now: int)
    ensures |Untold(previous, rows + [row], g, start, now)| ==
            |Untold(previous, rows, g, start, now)| + if GroupOf(row.key) == g && !Told(previous, row, start, now) then 1 else 0
  {
    hide Untold, Told, GroupOf;
    UntoldPlaces(previous, rows, row, g, start, now);
    OneMorePlace(Untold(previous, rows, g, start, now), Untold(previous, rows + [row], g, start, now), |rows|,
                 GroupOf(row.key) == g && !Told(previous, row, start, now));
  }

  lemma OneMorePlace(before: set<int>, after: set<int>, n: int, more: bool)
    requires n !in before && forall k :: k in after <==> k in before || (k == n && more)
    ensures |after| == |before| + if more then 1 else 0
  {
    if more {
      assert forall k :: k in after ==> k in before + {n};
      assert forall k :: k in before + {n} ==> k in after;
      assert after == before + {n};
    } else {
      assert forall k :: k in after ==> k in before;
      assert forall k :: k in before ==> k in after;
      assert after == before;
    }
  }

  lemma UntoldPlaces(previous: Baseline, rows: seq<MetricRow>, row: MetricRow, g: Group, start: int, now: int)
    ensures |rows| !in Untold(previous, rows, g, start, now)
    ensures forall k :: k in Untold(previous, rows + [row], g, start, now) <==>
              k in Untold(previous, rows, g, start, now) || (k == |rows| && GroupOf(row.key) == g && !Told(previous, row, start, now))
  {
    hide Told, GroupOf;
    var all := rows + [row];
    forall k
      ensures k in Untold(previous, all, g, start, now) <==>
              k in Untold(previous, rows, g, start, now) || (k == |rows| && GroupOf(row.key) == g && !Told(previous, row, start, now))
    {
      if 0 <= k < |rows| {
        assert all[k] == rows[k];
      }
    }
  }

  lemma {:induction false} UntoldAreResets(previous: Baseline, rows: seq<MetricRow>, g: Group, start: int, now: int)
    ensures GroupResets(previous, rows, g, start, now) == |Untold(previous, rows, g, start, now)|
  {
    hide Told, GroupOf, ResetCount, Untold;
    if rows == [] {
      NothingUntold(previous, g, start, now);
    } else {
      var front, last := rows[..|rows| - 1], rows[|rows| - 1];
      UntoldAreResets(previous, front, g, start, now);
      UntoldMore(previous, front, last, g, start, now);
      ToldIsGrown(previous, last, g, start, now);
      assert rows == front + [last];
    }
  }

  lemma NothingUntold(previous: Baseline, g: Group, start: int, now: int)
    ensures Untold(previous, [], g, start, now) == {}
  {
  }

  lemma NoneUntold(previous: Baseline, rows: seq<MetricRow>, g: Group, start: int, now: int)
    ensures |Untold(previous, rows, g, start, now)| == 0 <==> AllTold(previous, rows, g, start, now)
  {
    var untold := Untold(previous, rows, g, start, now);
    if AllTold(previous, rows, g, start, now) {
      assert untold == {};
    } else {
      var row :| row in rows && GroupOf(row.key) == g && !Told(previous, row, start, now);
      var k :| 0 <= k < |rows| && rows[k] == row;
      assert k in untold;
    }
  }

  lemma SampleReports(previous: Baseline, rows: seq<MetricRow>, g: Group, start: int, now: int, id: SampleId)
    requires g in GroupsOf(rows)
    ensures Reports(SampleOf(g, GroupGrowth(previous, rows, g, start, now), GroupResets(previous, rows, g, start, now), start, now, id),
                    previous, rows, start, now)
  {
    hide Gain, GroupGrowth, GroupResets, Untold, AllTold;
    forall i | 0 <= i < 6
      ensures GroupGrowth(previous, rows, g, start, now)[i] == Gain(previous, rows, g, start, now, i)
    {
      GainIsGrowth(previous, rows, g, start, now, i);
    }
    UntoldAreResets(previous, rows, g, start, now);
    NoneUntold(previous, rows, g, start, now);
  }

  /** The samples of a tick are reports, one for each group. */
  ghost predicate ReportsAll(samples: seq<Sample>, previous: Baseline, rows: seq<MetricRow>, start: int, now: int)
  {
    && (forall s :: s in samples ==> Reports(s, previous, rows, start, now))
    && (forall row :: row in rows ==> exists s :: s in samples && NameOf(s) == GroupOf(row.key))
    && (forall i, j :: 0 <= i < j < |samples| ==> NameOf(samples[i]) != NameOf(samples[j]))
  }

  lemma EmissionReports(samples: seq<Sample>, order: seq<Group>, previous: Baseline, rows: seq<MetricRow>, start: int, now: int, ids: seq<SampleId>)
    requires |samples| <= |ids| && Emission(samples, order, previous, rows, Some(start), now, ids)
    ensures ReportsAll(samples, previous, rows, start, now)
  {
    hide Reports, GroupGrowth, GroupResets;
    forall s | s in samples
      ensures Reports(s, previous, rows, start, now)
    {
      var i :| 0 <= i < |samples| && samples[i] == s;
      assert order[i] in order;
      SampleReports(previous, rows, order[i], start, now, ids[i]);
    }
    forall row | row in rows
      ensures exists s :: s in samples && NameOf(s) == GroupOf(row.key)
    {
      assert GroupOf(row.key) in order;
      var i :| 0 <= i < |order| && order[i] == GroupOf(row.key);
      assert samples[i] in samples && NameOf(samples[i]) == order[i];
    }
  }

  /** There is something to report: usage, or a row of which it cannot be told. */
  ghost predicate Busy(samples: seq<Sample>)
  {
    exists s :: s in samples && (s.resets > 0 || exists i :: 0 <= i < 6 && CountsOf(s)[i] != 0)
  }

  lemma BusySample(s: Sample, g: Group, counts: Counters, resets: nat, start: int, now: int, id: SampleId)
    requires s == SampleOf(g, counts, resets, start, now, id)
    ensures (s.resets > 0 || exists i :: 0 <= i < 6 && CountsOf(s)[i] != 0) <==> resets > 0 || counts != NOTHING
  {
    assert CountsOf(s) == counts;
    if counts != NOTHING {
      assert exists i :: 0 <= i < 6 && counts[i] != NOTHING[i];
    }
  }

  lemma TallyHeld(t: Tallies<Group>, previous: Baseline, rows: seq<MetricRow>, g: Group, start: int, now: int)
    requires AllTallied(t, previous, rows, start, now)
    ensures g in t.resets <==> t.Resets(g) > 0
    ensures g in t.resets ==> g in t.groups
  {
    assert Tallied(t, previous, rows, g, start, now);
  }

  lemma BusyTallies(t: Tallies<Group>, samples: seq<Sample>, order: seq<Group>, previous: Baseline, rows: seq<MetricRow>, start: int, now: int, ids: seq<SampleId>)
    requires AllTallied(t, previous, rows, start, now) && |order| == |samples| <= |ids|
    requires forall g :: g in order <==> g in t.groups
    requires forall i :: 0 <= i < |samples| ==> samples[i] == SampleOf(order[i], t.Counts(order[i]), t.Resets(order[i]), start, now, ids[i])
    ensures Busy(samples) <==> t.resets != map[] || exists g :: g in t.groups && t.groups[g] != NOTHING
  {
    hide AllTallied, SampleOf, CountsOf;
    if g :| g in t.groups && (g in t.resets || t.groups[g] != NOTHING) {
      var i :| 0 <= i < |order| && order[i] == g;
      TallyHeld(t, previous, rows, g, start, now);
      BusySample(samples[i], g, t.Counts(g), t.Resets(g), start, now, ids[i]);
      assert samples[i] in samples;
    } else if g :| g in t.resets {
      TallyHeld(t, previous, rows, g, start, now);
    }
    if Busy(samples) {
      var s :| s in samples && (s.resets > 0 || exists i :: 0 <= i < 6 && CountsOf(s)[i] != 0);
      var i :| 0 <= i < |samples| && samples[i] == s;
      assert order[i] in order;
      TallyHeld(t, previous, rows, order[i], start, now);
      BusySample(s, order[i], t.Counts(order[i]), t.Resets(order[i]), start, now, ids[i]);
    }
  }

  /** What the second part of a tick does to the state: when it reports what, and what it then emits. */
  ghost predicate Collected(before: State, after: State, status: Status, order: seq<Group>, now: int, enabled: bool, source: Source,
                            interval: int, ids: seq<SampleId>)
  {
    var start := StartOf(before.last, now, interval);
    && (status == Disabled <==> !enabled)
    && (status == Unavailable <==> enabled && |before.outbox| < MAX_OUTBOX && Unmeasurable(before.baseline, source, start, now))
    && (status == Stale <==>
          enabled && status != Unavailable && (|before.outbox| >= MAX_OUTBOX || |before.outbox| + Demand(source, start) > MAX_OUTBOX))
    && (status == Disabled || status == Unavailable ==> after == before.(last := None))
    && (status == Stale ==> after == before)
    && (status == Collecting || status == NoUsage ==>
          && source.Readable? && ValidRows(source.rows) && |before.outbox| < MAX_OUTBOX
          && after.baseline == Snapshot(source.rows) && after.last == Some(now) && after.lastSuccess == Some(now)
          && before.outbox <= after.outbox && |after.outbox| - |before.outbox| <= |ids|
          && Emission(after.outbox[|before.outbox|..], order, before.baseline, source.rows, start, now, ids)
          && (status == Collecting <==> Busy(after.outbox[|before.outbox|..])))
  }

  class Collector {
    var state: State
    const interval: int
    const retention: int
    /** Every snapshot ever adopted, with the time it was taken. */
    ghost var readings: set<(int, Baseline)>

    constructor (interval: int, retention: int)
      ensures state == State(map[], None, None, []) && Valid()
      ensures this.interval == interval && this.retention == retention
    {
      state, readings := State(map[], None, None, []), {};
      this.interval, this.retention := interval, retention;
    }

    /** The outbox is bounded, and while `last` is set the baseline is the snapshot taken then. */
    ghost predicate Sound(s: State)
      reads this
    {
      |s.outbox| <= MAX_OUTBOX && (s.last.Some? ==> (s.last.value, s.baseline) in readings && s.lastSuccess == s.last)
    }

    ghost predicate Valid()
      reads this
    {
      Sound(state)
    }

    /** Start again from what is on disk. */
    method Restart(disk: State)
      requires Sound(disk)
      modifies `state
      ensures state == disk && Valid()
    {
      state := disk;
    }

    /** The first part of tick: forget a baseline that is too old and drop what has been acknowledged. */
    method Absorb(now: int, acks: set<SampleId>)
      requires Valid()
      modifies `state
      ensures Valid()
      ensures state.outbox == Unacknowledged(old(state.outbox), acks) && state.lastSuccess == old(state.lastSuccess)
      ensures if old(state).lastSuccess.Some? && now - old(state).lastSuccess.value > retention
              then state.baseline == map[] && state.last == None
              else state.baseline == old(state.baseline) && state.last == old(state.last)
    {
      if state.lastSuccess.Some? && now - state.lastSuccess.value > retention {
        state := state.(baseline := map[], last := None);
      }
      state := state.(outbox := Unacknowledged(state.outbox, acks));
    }

    /** The second part of tick: sample, unless disabled or under backpressure. */
    method Collect(now: int, enabled: bool, source: Source, ids: seq<SampleId>) returns (status: Status, ghost order: seq<Group>)
      requires Valid() && |ids| >= MAX_GROUPS
      modifies `state, `readings
      ensures Valid() && old(readings) <= readings
      ensures Collected(old(state), state, status, order, now, enabled, source, interval, ids)
      ensures (status == Collecting || status == NoUsage) && StartOf(old(state).last, now, interval).Some? ==>
                ReportsAll(state.outbox[|old(state).outbox|..], old(state).baseline, source.rows, old(state).last.value, now)
    {
      order := [];
      if !enabled {
        state := state.(last := None);
        return Disabled, order;
      }
      if |state.outbox| >= MAX_OUTBOX {
        return Stale, order;
      }
      var r, g := TakeSamples(state.baseline, source, StartOf(state.last, now, interval), now, MAX_OUTBOX - |state.outbox|, ids);
      match r
      case Fails =>
        state := state.(last := None);
        return Unavailable, order;
      case NoRoom =>
        return Stale, order;
      case Taken(baseline, samples, active) =>
        order := g;
        if StartOf(state.last, now, interval).Some? {
          EmissionReports(samples, order, state.baseline, source.rows, state.last.value, now, ids);
        }
        readings := readings + {(now, baseline)};
        state := State(baseline, Some(now), Some(now), state.outbox + samples);
        assert state.outbox[|old(state).outbox|..] == samples;
        status := if active then Collecting else NoUsage;
    }
  }
}
