/** Per-interface traffic accounting, agent/monitoring/netstatic/static.go: counters are sampled into a
cache of differences, and flushing folds the cache into the store, split at the monthly reset. */
module TrafficStatic {
  import opened ResetClock

  const WORD: nat := 0x1_0000_0000_0000_0000

  // ---------- 64-bit byte counts ----------

  type Word = n: nat | n < WORD

  function Add(a: Word, b: Word): Word
  {
    (a + b) % WORD
  }

  function Sub(a: Word, b: Word): Word
  {
    (a - b) % WORD
  }

  lemma AddLaws(a: Word, b: Word, c: Word)
    ensures Add(Add(a, b), c) == Add(a, Add(b, c))
    ensures Add(a, 0) == a && Add(0, a) == a
    ensures Add(Sub(a, b), b) == a
  {
    WrapAdd(a + b, c);
    WrapAdd(b + c, a);
    WrapAdd(a - b, b);
  }

  lemma WrapAdd(x: int, y: nat)
    ensures (x % WORD + y) % WORD == (x + y) % WORD
  {
    var q := x / WORD;
    assert x + y == x % WORD + y + q * WORD;
  }

  datatype Bytes = Bytes(tx: Word, rx: Word)

  const ZERO: Bytes := Bytes(0, 0)

  function Plus(a: Bytes, b: Bytes): Bytes
  {
    Bytes(Add(a.tx, b.tx), Add(a.rx, b.rx))
  }

  function Minus(a: Bytes, b: Bytes): Bytes
  {
    Bytes(Sub(a.tx, b.tx), Sub(a.rx, b.rx))
  }

  lemma PlusLaws(a: Bytes, b: Bytes, c: Bytes)
    ensures Plus(Plus(a, b), c) == Plus(a, Plus(b, c))
    ensures Plus(a, ZERO) == a && Plus(ZERO, a) == a
    ensures Plus(Minus(a, b), b) == a
  {
    AddLaws(a.tx, b.tx, c.tx);
    AddLaws(a.rx, b.rx, c.rx);
  }

  // ---------- records ----------

  datatype TrafficData = TrafficData(timestamp: nat, bytes: Bytes)

  /** Zero leaves a side of the range open. */
  predicate InRange(timestamp: nat, start: nat, end: nat)
  {
    (start == 0 || timestamp >= start) && (end == 0 || timestamp <= end)
  }

  function Counted(td: TrafficData, start: nat, end: nat): Bytes
  {
    if InRange(td.timestamp, start, end) then td.bytes else ZERO
  }

  /** The traffic recorded in a range of time. */
  function Total(s: seq<TrafficData>, start: nat, end: nat): Bytes
  {
    if s == [] then ZERO else Plus(Total(s[..|s| - 1], start, end), Counted(s[|s| - 1], start, end))
  }

  lemma {:induction false} TotalOfConcat(s: seq<TrafficData>, t: seq<TrafficData>, start: nat, end: nat)
    ensures Total(s + t, start, end) == Plus(Total(s, start, end), Total(t, start, end))
  {
    if t == [] {
      assert s + t == s;
      PlusLaws(Total(s, start, end), ZERO, ZERO);
    } else {
      var t', td := t[..|t| - 1], t[|t| - 1];
      assert (s + t)[..|s + t| - 1] == s + t';
      TotalOfConcat(s, t', start, end);
      PlusLaws(Total(s, start, end), Total(t', start, end), Counted(td, start, end));
    }
  }

  /** A record counts from `start` to `end`, both included, and a side that is zero is open. */
  lemma OneRecordCounts(td: TrafficData, start: nat, end: nat)
    ensures Total([td], start, end) == if (start <= td.timestamp || start == 0) && (td.timestamp <= end || end == 0) then td.bytes else ZERO
  {
    var none := Total([td][..0], start, end);
    assert none == ZERO;
    PlusLaws(ZERO, Counted(td, start, end), ZERO);
  }

  /** The time a cached record carries after a flush at `ts`, split at `boundary` (zero: no split). */
  function MovedTo(timestamp: nat, ts: nat, boundary: nat): nat
  {
    if boundary == 0 then ts
    else if timestamp < boundary then if ts >= boundary then boundary - 1 else ts
    else if ts < boundary then boundary else ts
  }

  function Moved(s: seq<TrafficData>, ts: nat, boundary: nat): seq<TrafficData>
  {
    if s == [] then []
    else Moved(s[..|s| - 1], ts, boundary) + [s[|s| - 1].(timestamp := MovedTo(s[|s| - 1].timestamp, ts, boundary))]
  }

  /** Moving a record changes no total whose range does not tell its old time from the new one. */
  lemma {:induction false} MovedTotal(s: seq<TrafficData>, ts: nat, boundary: nat, start: nat, end: nat)
    requires forall td :: td in s ==> (InRange(td.timestamp, start, end) <==> InRange(MovedTo(td.timestamp, ts, boundary), start, end))
    ensures Total(Moved(s, ts, boundary), start, end) == Total(s, start, end)
  {
    if s != [] {
      MovedTotal(s[..|s| - 1], ts, boundary, start, end);
      var last := s[|s| - 1].(timestamp := MovedTo(s[|s| - 1].timestamp, ts, boundary));
      assert Moved(s, ts, boundary)[..|Moved(s, ts, boundary)| - 1] == Moved(s[..|s| - 1], ts, boundary);
    }
  }

  // ---------- folding a cache ----------

  /** The traffic of the records before the boundary, or of the others. */
  function Part(s: seq<TrafficData>, boundary: nat, early: bool): Bytes
  {
    if s == [] then ZERO
    else
      var td := s[|s| - 1];
      Plus(Part(s[..|s| - 1], boundary, early), if (td.timestamp < boundary) == early then td.bytes else ZERO)
  }

  function EarlyTime(ts: nat, boundary: nat): nat
  {
    if ts >= boundary > 0 then boundary - 1 else ts
  }

  function LateTime(ts: nat, boundary: nat): nat
  {
    if ts < boundary then boundary else ts
  }

  /** Moving every record of a part to one time is the same as recording the part's sum at that time. */
  lemma {:induction false} PartsTotal(s: seq<TrafficData>, ts: nat, boundary: nat, start: nat, end: nat)
    ensures Total(Moved(s, ts, boundary), start, end)
         == Plus(Counted(TrafficData(EarlyTime(ts, boundary), Part(s, boundary, true)), start, end),
                 Counted(TrafficData(LateTime(ts, boundary), Part(s, boundary, false)), start, end))
  {
    PlusLaws(ZERO, ZERO, ZERO);
    if s != [] {
      var s', td := s[..|s| - 1], s[|s| - 1];
      PartsTotal(s', ts, boundary, start, end);
      var moved := Moved(s, ts, boundary);
      assert moved[..|moved| - 1] == Moved(s', ts, boundary);
      var early := Counted(TrafficData(EarlyTime(ts, boundary), Part(s', boundary, true)), start, end);
      var late := Counted(TrafficData(LateTime(ts, boundary), Part(s', boundary, false)), start, end);
      var more := Counted(moved[|moved| - 1], start, end);
      PlusSwap(early, late, more);
      PlusLaws(early, late, more);
      PlusLaws(Part(s', boundary, true), ZERO, ZERO);
      PlusLaws(Part(s', boundary, false), ZERO, ZERO);
    }
  }

  lemma PlusSwap(a: Bytes, b: Bytes, c: Bytes)
    ensures Plus(Plus(a, b), c) == Plus(Plus(a, c), b)
  {
    PlusLaws(a, b, c);
    PlusLaws(a, c, b);
    assert Plus(b, c) == Plus(c, b);
  }

  /** A record is kept when it holds any traffic. */
  function Recorded(td: TrafficData): seq<TrafficData>
  {
    if td.bytes.tx > 0 || td.bytes.rx > 0 then [td] else []
  }

  lemma RecordedTotals(early: TrafficData, late: TrafficData, start: nat, end: nat)
    ensures Total(Recorded(early) + Recorded(late), start, end) == Plus(Counted(early, start, end), Counted(late, start, end))
  {
    TotalOfConcat(Recorded(early), Recorded(late), start, end);
    PlusLaws(early.bytes, ZERO, ZERO);
    PlusLaws(late.bytes, ZERO, ZERO);
  }

  /** aggregateByReset (sumTraffic when there is no boundary): at most two records that count, in every
      range, what the cached records count once they are moved to the flush. */
  method AggregateByReset(arr: seq<TrafficData>, ts: nat, boundary: nat) returns (out: seq<TrafficData>)
    ensures |out| <= 2
    ensures forall start, end :: Total(out, start, end) == Total(Moved(arr, ts, boundary), start, end)
  {
    var before, after := ZERO, ZERO;
    for i := 0 to |arr|
      invariant before == Part(arr[..i], boundary, true) && after == Part(arr[..i], boundary, false)
    {
      assert arr[..i + 1][..i] == arr[..i];
      PlusLaws(before, ZERO, ZERO);
      PlusLaws(after, ZERO, ZERO);
      if arr[i].timestamp < boundary {
        before := Plus(before, arr[i].bytes);
      } else {
        after := Plus(after, arr[i].bytes);
      }
    }
    assert arr[..|arr|] == arr;
    var early, late := TrafficData(EarlyTime(ts, boundary), before), TrafficData(LateTime(ts, boundary), after);
    out := Recorded(early) + Recorded(late);
    forall start, end
      ensures Total(out, start, end) == Total(Moved(arr, ts, boundary), start, end)
    {
      RecordedTotals(early, late, start, end);
      PartsTotal(arr, ts, boundary, start, end);
    }
  }

  // ---------- the collector ----------

  type Samples = map<string, seq<TrafficData>>
  datatype Interface = Interface(name: string, counters: Bytes)
  datatype ResetSetting = ResetSetting(day: int, clock: int, offset: int)

  function Of(m: Samples, name: string): seq<TrafficData>
  {
    if name in m then m[name] else []
  }

  /** resetBoundaryUnix: zero when there is no usable reset. */
  function ResetBoundary(reset: ResetSetting, ts: nat): nat
  {
    if reset.day < 1 || reset.day > 31 || ts == 0 then 0
    else
      var instant := GetLastResetInstant(reset.day, reset.clock, reset.offset, ts);
      if instant <= 0 then 0 else instant
  }

  /** A flush splits at the last reset that is not after it, if there is one since 1970. */
  lemma SplitsAtTheLastReset(reset: ResetSetting, ts: nat)
    requires 0 <= reset.clock < 86400
    ensures 1 <= reset.day <= 31 && ts > 0 && ResetBoundary(reset, ts) > 0 ==>
              && IsReset(ResetBoundary(reset, ts), reset.day, reset.clock, reset.offset) && ResetBoundary(reset, ts) <= ts
              && forall t :: IsReset(t, reset.day, reset.clock, reset.offset) && t <= ts ==> t <= ResetBoundary(reset, ts)
    ensures 1 <= reset.day <= 31 && ts > 0 && ResetBoundary(reset, ts) == 0 ==>
              forall t :: IsReset(t, reset.day, reset.clock, reset.offset) && t <= ts ==> t <= 0
    ensures reset.day < 1 || 31 < reset.day || ts == 0 ==> ResetBoundary(reset, ts) == 0
  {
    if 1 <= reset.day <= 31 {
      LastResetIsGreatest(reset.day, reset.clock, reset.offset, ts);
      hide IsReset, GetLastResetInstant;
    }
  }

  function SafeDelta(cur: Word, prev: Word): Word
  {
    if cur >= prev then cur - prev else 0
  }

  function Delta(cur: Bytes, prev: Bytes): Bytes
  {
    Bytes(SafeDelta(cur.tx, prev.tx), SafeDelta(cur.rx, prev.rx))
  }

  predicate Rises(cur: Bytes, prev: Bytes)
  {
    cur.tx >= prev.tx && cur.rx >= prev.rx
  }

  /** An interface's last sampled counters, if it was ever sampled. */
  datatype Reading = Unseen | Seen(counters: Bytes)

  /** The last counters of an interface after a list of samples. */
  function Latest(ios: seq<Interface>, name: string, last: Reading): Reading
  {
    if ios == [] then last
    else if ios[|ios| - 1].name == name then Seen(ios[|ios| - 1].counters)
    else Latest(ios[..|ios| - 1], name, last)
  }

  /** The first counters known of it. */
  function First(ios: seq<Interface>, name: string, last: Reading): Reading
  {
    if ios == [] then last
    else
      var before := First(ios[..|ios| - 1], name, last);
      if before.Unseen? && ios[|ios| - 1].name == name then Seen(ios[|ios| - 1].counters) else before
  }

  /** What one sample is worth: the difference from the last one, and nothing when there is no last one. */
  function Worth(io: Interface, name: string, last: Reading): Bytes
  {
    if io.name == name && last.Seen? then Delta(io.counters, last.counters) else ZERO
  }

  /** What a list of samples is worth. */
  function Charge(ios: seq<Interface>, name: string, last: Reading): Bytes
  {
    if ios == [] then ZERO
    else
      var earlier := ios[..|ios| - 1];
      Plus(Charge(earlier, name, last), Worth(ios[|ios| - 1], name, Latest(earlier, name, last)))
  }

  /** The counters of an interface never fall over a list of samples. */
  predicate Steady(ios: seq<Interface>, name: string, last: Reading)
  {
    if ios == [] then true
    else
      var io, earlier := ios[|ios| - 1], ios[..|ios| - 1];
      && Steady(earlier, name, last)
      && (io.name == name && Latest(earlier, name, last).Seen? ==> Rises(io.counters, Latest(earlier, name, last).counters))
  }

  /** Steady means: no sample of the interface shows less than the one before it. */
  lemma {:induction false} SteadyMeans(ios: seq<Interface>, name: string, last: Reading)
    ensures Steady(ios, name, last) <==> forall i :: 0 <= i < |ios| ==> NoFall(ios, i, name, last)
  {
    if ios != [] {
      var earlier := ios[..|ios| - 1];
      SteadyMeans(earlier, name, last);
      assert Steady(ios, name, last) <==> Steady(earlier, name, last) && NoFall(ios, |earlier|, name, last);
      forall i | 0 <= i < |earlier|
        ensures NoFall(ios, i, name, last) <==> NoFall(earlier, i, name, last)
      {
        assert ios[..i] == earlier[..i];
      }
    }
  }

  ghost predicate NoFall(ios: seq<Interface>, i: nat, name: string, last: Reading)
    requires i < |ios|
  {
    var before := Latest(ios[..i], name, last);
    ios[i].name == name && before.Seen? ==> before.counters.tx <= ios[i].counters.tx && before.counters.rx <= ios[i].counters.rx
  }

  /** `charge` leads from the first counters to the last ones. */
  ghost predicate Leads(first: Reading, charge: Bytes, last: Reading)
  {
    match first
    case Unseen => last == Unseen && charge == ZERO
    case Seen(counters) => last.Seen? && Plus(charge, counters) == last.counters
  }

  lemma RiseAdds(first: Bytes, charge: Bytes, last: Bytes, next: Bytes)
    requires Plus(charge, first) == last && Rises(next, last)
    ensures Plus(Plus(charge, Delta(next, last)), first) == next
  {
    hide Add, SafeDelta;
    PlusSwap(charge, Delta(next, last), first);
    WordRises(last.tx, next.tx);
    WordRises(last.rx, next.rx);
  }

  lemma WordRises(last: Word, next: Word)
    requires last <= next
    ensures Add(last, SafeDelta(next, last)) == next
  {
  }

  /** An interface whose counters never fall is charged its last counters minus its first, in 64-bit arithmetic. */
  lemma {:induction false} SteadyCharge(ios: seq<Interface>, name: string, last: Reading)
    requires Steady(ios, name, last)
    ensures Leads(First(ios, name, last), Charge(ios, name, last), Latest(ios, name, last))
  {
    hide Plus, Rises, Delta;
    PlusZero();
    if ios == [] {
    } else {
      var earlier, io := ios[..|ios| - 1], ios[|ios| - 1];
      SteadyCharge(earlier, name, last);
      var first, charge, before := First(earlier, name, last), Charge(earlier, name, last), Latest(earlier, name, last);
      if io.name == name && before.Seen? {
        RiseAdds(first.counters, charge, before.counters, io.counters);
      }
    }
  }

  /** What a counter climbs over a list of values; a fall adds nothing. */
  function Climb(values: seq<nat>): nat
  {
    if |values| <= 1 then 0
    else
      var n := |values|;
      Climb(values[..n - 1]) + if values[n - 1] > values[n - 2] then values[n - 1] - values[n - 2] else 0
  }

  /** The values one counter of an interface takes, from its last one on. */
  function Values(ios: seq<Interface>, name: string, last: Reading, sent: bool): seq<nat>
  {
    if ios == [] then if last.Seen? then [if sent then last.counters.tx else last.counters.rx] else []
    else
      var io := ios[|ios| - 1];
      Values(ios[..|ios| - 1], name, last, sent) + if io.name == name then [if sent then io.counters.tx else io.counters.rx] else []
  }

  lemma {:induction false} LastValue(ios: seq<Interface>, name: string, last: Reading, sent: bool)
    ensures var values, latest := Values(ios, name, last, sent), Latest(ios, name, last);
            && (latest == Unseen <==> values == [])
            && (latest.Seen? ==> values[|values| - 1] == if sent then latest.counters.tx else latest.counters.rx)
  {
    if ios != [] {
      LastValue(ios[..|ios| - 1], name, last, sent);
    }
  }

  lemma ClimbMore(values: seq<nat>, next: nat)
    ensures Climb(values + [next]) == Climb(values) +
              if values != [] && next > values[|values| - 1] then next - values[|values| - 1] else 0
  {
    var all := values + [next];
    assert all[..|values|] == values;
  }

  lemma ChargeMore(ios: seq<Interface>, name: string, last: Reading)
    requires ios != []
    ensures var earlier, io := ios[..|ios| - 1], ios[|ios| - 1];
            var before := Latest(earlier, name, last);
            if io.name == name && before.Seen?
            then Charge(ios, name, last) == Plus(Charge(earlier, name, last), Bytes(SafeDelta(io.counters.tx, before.counters.tx),
                                                                                  SafeDelta(io.counters.rx, before.counters.rx)))
            else Charge(ios, name, last) == Charge(earlier, name, last)
  {
    PlusZero();
  }

  lemma ValuesMore(ios: seq<Interface>, name: string, last: Reading, sent: bool)
    requires ios != []
    ensures var earlier, io := ios[..|ios| - 1], ios[|ios| - 1];
            Values(ios, name, last, sent) ==
            Values(earlier, name, last, sent) + if io.name == name then [if sent then io.counters.tx else io.counters.rx] else []
  {
  }

  lemma ClimbWraps(climb: nat, charge: Word, cur: Word, prev: Word)
    requires charge == climb % WORD
    ensures Add(charge, SafeDelta(cur, prev)) == (climb + if cur > prev then cur - prev else 0) % WORD
  {
    WrapAdd(climb, SafeDelta(cur, prev));
  }

  lemma NothingClimbs(name: string, last: Reading)
    ensures Charge([], name, last) == ZERO && Climb(Values([], name, last, true)) == Climb(Values([], name, last, false)) == 0
  {
  }

  /** What a list of samples is worth is what each of the two counters climbs, in 64-bit arithmetic. */
  lemma {:induction false} ChargeIsClimb(ios: seq<Interface>, name: string, last: Reading)
    ensures Charge(ios, name, last).tx == Climb(Values(ios, name, last, true)) % 0x1_0000_0000_0000_0000
    ensures Charge(ios, name, last).rx == Climb(Values(ios, name, last, false)) % 0x1_0000_0000_0000_0000
  {
    hide Charge, Climb, Values, Latest, Add, SafeDelta, Worth, Delta;
    if ios == [] {
      NothingClimbs(name, last);
    } else {
      var earlier, io := ios[..|ios| - 1], ios[|ios| - 1];
      var before := Latest(earlier, name, last);
      var sent, received := Values(earlier, name, last, true), Values(earlier, name, last, false);
      ChargeIsClimb(earlier, name, last);
      ChargeMore(ios, name, last);
      ValuesMore(ios, name, last, true);
      ValuesMore(ios, name, last, false);
      LastValue(earlier, name, last, true);
      LastValue(earlier, name, last, false);
      ClimbMore(sent, io.counters.tx);
      ClimbMore(received, io.counters.rx);
      if io.name == name && before.Seen? {
        ClimbWraps(Climb(sent), Charge(earlier, name, last).tx, io.counters.tx, before.counters.tx);
        ClimbWraps(Climb(received), Charge(earlier, name, last).rx, io.counters.rx, before.counters.rx);
      }
      assert Values(ios, name, last, true) == if io.name == name then sent + [io.counters.tx] else sent;
      assert Values(ios, name, last, false) == if io.name == name then received + [io.counters.rx] else received;
    }
  }

  lemma PlusZero()
    ensures forall b: Bytes :: Plus(b, ZERO) == b && Plus(ZERO, b) == b
  {
    forall b: Bytes
      ensures Plus(b, ZERO) == b && Plus(ZERO, b) == b
    {
      PlusLaws(b, ZERO, ZERO);
    }
  }

  /** One charge after another. */
  lemma LeadsOn(first: Reading, charge: Bytes, mid: Reading, first': Reading, charge': Bytes, last: Reading)
    requires Leads(first, charge, mid) && Leads(first', charge', last)
    requires mid.Seen? ==> first' == mid
    ensures Leads(if first.Seen? then first else first', Plus(charge, charge'), last)
  {
    PlusZero();
    if first.Seen? {
      PlusSwap(charge, charge', first.counters);
      assert Plus(mid.counters, charge') == Plus(charge', mid.counters);
    }
  }

  lemma {:induction false} FirstKeeps(ios: seq<Interface>, name: string, last: Reading)
    requires last.Seen?
    ensures First(ios, name, last) == last
  {
    if ios != [] {
      FirstKeeps(ios[..|ios| - 1], name, last);
    }
  }

  /** A record counts in the ranges its time lies in. */
  lemma RecordCounts(s: seq<TrafficData>, t: seq<TrafficData>, td: TrafficData, start: nat, end: nat)
    ensures Plus(Total(s, start, end), Total(t + Recorded(td), start, end))
         == Plus(Plus(Total(s, start, end), Total(t, start, end)), Counted(td, start, end))
  {
    TotalOfConcat(t, Recorded(td), start, end);
    PlusLaws(td.bytes, ZERO, ZERO);
    PlusLaws(Total(s, start, end), Total(t, start, end), Counted(td, start, end));
  }

  lemma CountedPlus(used: Bytes, ts: nat, charge: Bytes, more: Bytes, start: nat, end: nat)
    ensures Plus(Plus(used, Counted(TrafficData(ts, charge), start, end)), Counted(TrafficData(ts, more), start, end))
         == Plus(used, Counted(TrafficData(ts, Plus(charge, more)), start, end))
  {
    PlusZero();
    PlusLaws(used, charge, more);
  }

  /** After a flush the store counts, in every range, what it counted before and what the cache counts once
      its records are moved to the flush. */
  ghost predicate Folded(store: Samples, store': Samples, cache: Samples, ts: nat, boundary: nat, name: string)
  {
    forall start, end :: Total(Of(store', name), start, end)
                         == Plus(Total(Of(store, name), start, end), Total(Moved(Of(cache, name), ts, boundary), start, end))
  }

  lemma FoldOne(stored: seq<TrafficData>, folded: seq<TrafficData>, cached: seq<TrafficData>, ts: nat, boundary: nat)
    requires forall start, end :: Total(folded, start, end) == Total(Moved(cached, ts, boundary), start, end)
    ensures forall start, end :: Total(stored + folded, start, end)
                                 == Plus(Total(stored, start, end), Total(Moved(cached, ts, boundary), start, end))
  {
    forall start, end
      ensures Total(stored + folded, start, end) == Plus(Total(stored, start, end), Total(Moved(cached, ts, boundary), start, end))
    {
      TotalOfConcat(stored, folded, start, end);
    }
  }

  /** Everything cached is folded except what is still to do. */
  ghost predicate FoldedSoFar(store: Samples, store': Samples, cache: Samples, ts: nat, boundary: nat, todo: set<string>)
  {
    && (forall n :: n in todo || n !in cache ==> Of(store', n) == Of(store, n))
    && (forall n :: n in cache && n !in todo ==> Folded(store, store', cache, ts, boundary, n))
  }

  /** Folding one interface leaves the folded ones as they are. */
  lemma KeepFolded(store: Samples, before: Samples, after: Samples, cache: Samples, ts: nat, boundary: nat, todo: set<string>, name: string)
    requires name in todo && FoldedSoFar(store, before, cache, ts, boundary, todo)
    requires name in cache && Folded(before, after, cache, ts, boundary, name)
    requires forall n :: n != name ==> Of(after, n) == Of(before, n)
    ensures FoldedSoFar(store, after, cache, ts, boundary, todo - {name})
  {
    hide Total;
    forall n | n in cache && n !in todo - {name}
      ensures Folded(store, after, cache, ts, boundary, n)
    {
      if n != name {
        assert Folded(store, before, cache, ts, boundary, n);
      } else {
        assert Of(before, n) == Of(store, n);
      }
    }
  }

  lemma AllFolded(store: Samples, store': Samples, cache: Samples, ts: nat, boundary: nat)
    requires FoldedSoFar(store, store', cache, ts, boundary, {})
    ensures forall n :: Folded(store, store', cache, ts, boundary, n)
  {
    forall n | n !in cache
      ensures Folded(store, store', cache, ts, boundary, n)
    {
      forall start, end
        ensures Plus(Total(Of(store, n), start, end), ZERO) == Total(Of(store, n), start, end)
      {
        PlusLaws(Total(Of(store, n), start, end), ZERO, ZERO);
      }
    }
  }

  /** A flush keeps the grand totals. */
  lemma FlushSettles(store: Samples, store': Samples, cache: Samples, ts: nat, boundary: nat)
    requires forall name :: Folded(store, store', cache, ts, boundary, name)
    ensures forall name :: Plus(Total(Of(store', name), 0, 0), Total([], 0, 0)) == Plus(Total(Of(store, name), 0, 0), Total(Of(cache, name), 0, 0))
  {
    forall name
      ensures Plus(Total(Of(store', name), 0, 0), Total([], 0, 0)) == Plus(Total(Of(store, name), 0, 0), Total(Of(cache, name), 0, 0))
    {
      assert Folded(store, store', cache, ts, boundary, name);
      MovedTotal(Of(cache, name), ts, boundary, 0, 0);
      PlusLaws(Total(Of(store', name), 0, 0), ZERO, ZERO);
    }
  }

  predicate Monitored(nics: seq<string>, name: string)
  {
    nics == [] || name in nics
  }

  /** What store and cache count for one interface in a range. */
  function Used(store: Samples, cache: Samples, name: string, start: nat, end: nat): Bytes
  {
    Plus(Total(Of(store, name), start, end), Total(Of(cache, name), start, end))
  }

  function LastOf(last: map<string, Bytes>, name: string): Reading
  {
    if name in last then Seen(last[name]) else Unseen
  }

  /** The samples as far as they concern one interface: none do if it is not monitored. */
  function Heard(nics: seq<string>, ios: seq<Interface>, name: string): seq<Interface>
  {
    if Monitored(nics, name) then ios else []
  }

  /** What one sample does. */
  ghost predicate SampledOne(nics: seq<string>, cache: Samples, last: map<string, Bytes>, cache': Samples, last': map<string, Bytes>,
                             io: Interface, ts: nat)
  {
    && last' == (if Monitored(nics, io.name) then last[io.name := io.counters] else last)
    && (forall name :: name != io.name ==> Of(cache', name) == Of(cache, name))
    && Of(cache', io.name) == Of(cache, io.name) +
         if io.name in last && Monitored(nics, io.name) then Recorded(TrafficData(ts, Delta(io.counters, last[io.name]))) else []
  }

  /** What a round of samples, taken at `ts`, does to one interface. */
  ghost predicate Sampled(nics: seq<string>, store: Samples, cache: Samples, last: map<string, Bytes>, cache': Samples, last': map<string, Bytes>,
                          ios: seq<Interface>, ts: nat, name: string)
  {
    var heard := Heard(nics, ios, name);
    && LastOf(last', name) == Latest(heard, name, LastOf(last, name))
    && forall start, end ::
         Used(store, cache', name, start, end)
         == Plus(Used(store, cache, name, start, end), Counted(TrafficData(ts, Charge(heard, name, LastOf(last, name))), start, end))
  }

  lemma SampleIsWorth(nics: seq<string>, store: Samples, cache: Samples, last: map<string, Bytes>, cache': Samples, last': map<string, Bytes>,
                      io: Interface, ts: nat, name: string, start: nat, end: nat)
    requires SampledOne(nics, cache, last, cache', last', io, ts) && Monitored(nics, name)
    ensures LastOf(last', name) == if io.name == name then Seen(io.counters) else LastOf(last, name)
    ensures Used(store, cache', name, start, end)
         == Plus(Used(store, cache, name, start, end), Counted(TrafficData(ts, Worth(io, name, LastOf(last, name))), start, end))
  {
    hide Total, Plus, Delta, Recorded, Monitored;
    PlusZero();
    if name == io.name && name in last {
      RecordCounts(Of(store, name), Of(cache, name), TrafficData(ts, Delta(io.counters, last[name])), start, end);
    } else {
      assert Of(cache', name) == Of(cache, name);
    }
  }

  lemma SampledMore(nics: seq<string>, store: Samples, cache0: Samples, last0: map<string, Bytes>, cache: Samples, last: map<string, Bytes>,
                    cache': Samples, last': map<string, Bytes>, ios: seq<Interface>, i: nat, ts: nat, name: string)
    requires i < |ios| && Sampled(nics, store, cache0, last0, cache, last, ios[..i], ts, name)
    requires SampledOne(nics, cache, last, cache', last', ios[i], ts)
    ensures Sampled(nics, store, cache0, last0, cache', last', ios[..i + 1], ts, name)
  {
    hide Used, Charge, Latest, Worth, Counted, LastOf, SampledOne, Plus;
    if Monitored(nics, name) {
      var start0 := LastOf(last0, name);
      NextWorth(ios, i, name, start0);
      SampleIsWorth(nics, store, cache, last, cache', last', ios[i], ts, name, 0, 0);
      forall start, end
        ensures Used(store, cache', name, start, end)
             == Plus(Used(store, cache0, name, start, end), Counted(TrafficData(ts, Charge(ios[..i + 1], name, start0)), start, end))
      {
        SampleIsWorth(nics, store, cache, last, cache', last', ios[i], ts, name, start, end);
        CountedPlus(Used(store, cache0, name, start, end), ts, Charge(ios[..i], name, start0),
                    Worth(ios[i], name, Latest(ios[..i], name, start0)), start, end);
      }
    } else {
      NotSampled(nics, store, cache, last, cache', last', ios[i], ts, name);
    }
  }

  lemma NextWorth(ios: seq<Interface>, i: nat, name: string, last: Reading)
    requires i < |ios|
    ensures Charge(ios[..i + 1], name, last) == Plus(Charge(ios[..i], name, last), Worth(ios[i], name, Latest(ios[..i], name, last)))
    ensures Latest(ios[..i + 1], name, last) == if ios[i].name == name then Seen(ios[i].counters) else Latest(ios[..i], name, last)
  {
    assert ios[..i + 1][..i] == ios[..i];
  }

  lemma NotSampled(nics: seq<string>, store: Samples, cache: Samples, last: map<string, Bytes>, cache': Samples, last': map<string, Bytes>,
                   io: Interface, ts: nat, name: string)
    requires SampledOne(nics, cache, last, cache', last', io, ts) && !Monitored(nics, name)
    ensures LastOf(last', name) == LastOf(last, name)
    ensures forall start, end :: Used(store, cache', name, start, end) == Used(store, cache, name, start, end)
  {
    assert Of(cache', name) == Of(cache, name);
  }

  class NetStatic {
    var store: Samples
    var cache: Samples
    var lastCounters: map<string, Bytes>
    var nics: seq<string>
    var reset: ResetSetting

    constructor (nics: seq<string>, reset: ResetSetting)
      ensures store == map[] && cache == map[] && lastCounters == map[]
      ensures this.nics == nics && this.reset == reset
    {
      store, cache, lastCounters := map[], map[], map[];
      this.nics, this.reset := nics, reset;
    }

    /** GetTotalTrafficBetween for one interface. */
    function Usage(name: string, start: nat, end: nat): Bytes
      reads this
    {
      Used(store, cache, name, start, end)
    }

    predicate Allowed(name: string)
      reads this
    {
      Monitored(nics, name)
    }

    function Last(name: string): Reading
      reads this
    {
      LastOf(lastCounters, name)
    }

    /** Append to an interface's cache unless both counts are zero. */
    method Record(name: string, td: TrafficData)
      modifies `cache
      ensures Of(cache, name) == old(Of(cache, name)) + Recorded(td)
      ensures forall n :: n != name ==> Of(cache, n) == old(Of(cache, n))
    {
      if td.bytes.tx > 0 || td.bytes.rx > 0 {
        cache := cache[name := Of(cache, name) + [td]];
      }
    }

    /** sampleOnceLocked for one interface: the first sample is not recorded, nor is a zero difference. */
    method SampleInterface(io: Interface, ts: nat)
      modifies `cache, `lastCounters
      ensures SampledOne(nics, old(cache), old(lastCounters), cache, lastCounters, io, ts)
      ensures lastCounters == if nics != [] && io.name !in nics then old(lastCounters) else old(lastCounters)[io.name := io.counters]
      ensures nics != [] && io.name !in nics ==> cache == old(cache)
    {
      if !Allowed(io.name) {
        return;
      }
      var name := io.name;
      if name in lastCounters {
        Record(name, TrafficData(ts, Delta(io.counters, lastCounters[name])));
      }
      lastCounters := lastCounters[name := io.counters];
    }

    /** sampleOnceLocked: every interface is charged what its samples are worth, at the time of the round. */
    method SampleOnce(ios: seq<Interface>, ts: nat)
      modifies `cache, `lastCounters
      ensures forall name :: Sampled(nics, store, old(cache), old(lastCounters), cache, lastCounters, ios, ts, name)
    {
      PlusZero();
      for i := 0 to |ios|
        invariant forall name :: Sampled(nics, store, old(cache), old(lastCounters), cache, lastCounters, ios[..i], ts, name)
      {
        hide *;
        ghost var cache', last', sofar := cache, lastCounters, ios[..i + 1];
        SampleInterface(ios[i], ts);
        forall name
          ensures Sampled(nics, store, old(cache), old(lastCounters), cache, lastCounters, sofar, ts, name)
        {
          SampledMore(nics, store, old(cache), old(lastCounters), cache', last', cache, lastCounters, ios, i, ts, name);
        }
      }
      assert ios[..|ios|] == ios;
    }

    /** Move one interface's cache into the store. */
    method FoldInterface(name: string, ts: nat)
      requires name in cache
      modifies `store
      ensures Folded(old(store), store, cache, ts, ResetBoundary(reset, ts), name)
      ensures forall n :: n != name ==> Of(store, n) == Of(old(store), n)
    {
      var folded := AggregateByReset(cache[name], ts, ResetBoundary(reset, ts));
      FoldOne(Of(store, name), folded, cache[name], ts, ResetBoundary(reset, ts));
      store := store[name := Of(store, name) + folded];
    }

    /** flushCacheLocked. */
    method FlushCache(ts: nat)
      modifies `store, `cache
      ensures cache == map[]
      ensures forall name :: Folded(old(store), store, old(cache), ts, ResetBoundary(reset, ts), name)
      ensures forall name :: Usage(name, 0, 0) == old(Usage(name, 0, 0))
    {
      FoldAll(ts);
      FlushSettles(old(store), store, cache, ts, ResetBoundary(reset, ts));
      cache := map[];
    }

    method FoldAll(ts: nat)
      modifies `store
      ensures forall name :: Folded(old(store), store, cache, ts, ResetBoundary(reset, ts), name)
    {
      var todo := cache.Keys;
      while todo != {}
        invariant todo <= cache.Keys
        invariant FoldedSoFar(old(store), store, cache, ts, ResetBoundary(reset, ts), todo)
      {
        var name :| name in todo;
        ghost var before := store;
        FoldInterface(name, ts);
        KeepFolded(old(store), before, store, cache, ts, ResetBoundary(reset, ts), todo, name);
        todo := todo - {name};
      }
      AllFolded(old(store), store, cache, ts, ResetBoundary(reset, ts));
    }

    /** GetTotalTrafficBetween (GetTotalTraffic when both ends are open, except that an interface without
        traffic is then listed too). */
    method GetTotalTrafficBetween(start: nat, end: nat) returns (res: map<string, Bytes>)
      ensures forall name :: name in res ==> res[name] == Usage(name, start, end)
      ensures forall name :: name !in res ==> Usage(name, start, end) == ZERO
    {
      res := map[];
      PlusLaws(ZERO, ZERO, ZERO);
      var todo := store.Keys + cache.Keys;
      while todo != {}
        invariant todo <= store.Keys + cache.Keys
        invariant forall name :: name in res ==> name !in todo && res[name] == Usage(name, start, end)
        invariant forall name :: name !in res && name !in todo ==> Usage(name, start, end) == ZERO
      {
        var name :| name in todo;
        var listed, used := UsedBy(name, start, end);
        if listed {
          res := res[name := used];
        }
        todo := todo - {name};
      }
    }

    /** What one interface adds to the result: its stored part and its cached part, each if it is not zero. */
    method UsedBy(name: string, start: nat, end: nat) returns (listed: bool, used: Bytes)
      ensures used == Usage(name, start, end) && (listed || used == ZERO)
    {
      var stored := SumRange(Of(store, name), start, end);
      var cached := SumRange(Of(cache, name), start, end);
      PlusLaws(stored, ZERO, ZERO);
      PlusLaws(cached, ZERO, ZERO);
      listed, used := false, ZERO;
      if stored.tx > 0 || stored.rx > 0 {
        listed, used := true, stored;
      }
      if cached.tx > 0 || cached.rx > 0 {
        listed, used := true, Plus(used, cached);
      }
    }
  }

  method SumRange(arr: seq<TrafficData>, start: nat, end: nat) returns (sum: Bytes)
    ensures sum == Total(arr, start, end)
  {
    sum := ZERO;
    for i := 0 to |arr|
      invariant sum == Total(arr[..i], start, end)
    {
      assert arr[..i + 1][..i] == arr[..i];
      PlusLaws(sum, ZERO, ZERO);
      if InRange(arr[i].timestamp, start, end) {
        sum := Plus(sum, arr[i].bytes);
      }
    }
    assert arr[..|arr|] == arr;
  }

  // ---------- what flushing keeps ----------

  lemma AddCancels(a: Word, b: Word, c: Word)
    ensures Add(a, b) == Add(a, c) <==> b == c
  {
    var p, q := (a + b) / WORD, (a + c) / WORD;
    assert Add(a, b) - Add(a, c) == b - c - (p - q) * WORD;
  }

  lemma PlusCancels(a: Bytes, b: Bytes, c: Bytes)
    ensures Plus(a, b) == Plus(a, c) <==> b == c
  {
    AddCancels(a.tx, b.tx, c.tx);
    AddCancels(a.rx, b.rx, c.rx);
  }

  /** A flush leaves no record newer than itself, nor one further back than the end of the last period. */
  lemma {:induction false} MovedTimes(s: seq<TrafficData>, ts: nat, boundary: nat)
    requires 0 < boundary <= ts
    ensures forall td :: td in Moved(s, ts, boundary) ==> boundary - 1 <= td.timestamp <= ts
  {
    if s != [] {
      MovedTimes(s[..|s| - 1], ts, boundary);
    }
  }

  lemma {:induction false} NoneInRange(s: seq<TrafficData>, since: nat)
    requires forall td :: td in s ==> td.timestamp < since
    ensures Total(s, since, 0) == ZERO
  {
    if s != [] {
      assert s[|s| - 1] in s;
      NoneInRange(s[..|s| - 1], since);
      PlusLaws(ZERO, ZERO, ZERO);
    }
  }

  lemma {:induction false} AllInRange(s: seq<TrafficData>, since: nat)
    requires forall td :: td in s ==> td.timestamp >= since
    ensures Total(s, since, 0) == Total(s, 0, 0)
  {
    if s != [] {
      assert s[|s| - 1] in s;
      AllInRange(s[..|s| - 1], since);
    }
  }

  /** The traffic of a cache since a reset, once its records are moved to a flush. */
  lemma MovedSinceReset(s: seq<TrafficData>, ts: nat, boundary: nat, since: nat)
    requires 0 < boundary <= ts && (since <= boundary || since > ts)
    ensures Total(Moved(s, ts, boundary), since, 0) ==
              if since > ts then ZERO else if since == boundary then Total(s, since, 0) else Total(s, 0, 0)
  {
    hide Total, Moved;
    MovedTimes(s, ts, boundary);
    if since > ts {
      NoneInRange(Moved(s, ts, boundary), since);
    } else if since == boundary {
      MovedTotal(s, ts, boundary, since, 0);
    } else {
      AllInRange(Moved(s, ts, boundary), since);
      MovedTotal(s, ts, boundary, 0, 0);
    }
  }

  /** A flush keeps the traffic since the reset it splits at, whatever is cached.  It keeps the traffic since a later
      reset exactly if nothing of it is cached yet, since a flush files nothing after itself, and the traffic since an
      earlier one exactly if nothing older is cached. */
  lemma FlushKeepsTotalSinceReset(store: Samples, store': Samples, cache: Samples, reset: ResetSetting, ts: nat, since: nat, name: string)
    requires 1 <= reset.day <= 31 && 0 <= reset.clock < DAY
    requires Folded(store, store', cache, ts, ResetBoundary(reset, ts), name)
    requires IsReset(since, reset.day, reset.clock, reset.offset) && ResetBoundary(reset, ts) > 0
    ensures Total(Of(store', name), since, 0) == Plus(Total(Of(store, name), since, 0), Total(Of(cache, name), since, 0)) <==>
              if since > ts then Total(Of(cache, name), since, 0) == ZERO
              else since == ResetBoundary(reset, ts) || Total(Of(cache, name), since, 0) == Total(Of(cache, name), 0, 0)
  {
    hide Total, Plus;
    var boundary := ResetBoundary(reset, ts);
    LastResetIsGreatest(reset.day, reset.clock, reset.offset, ts);
    MovedSinceReset(Of(cache, name), ts, boundary, since);
    PlusCancels(Total(Of(store, name), since, 0), Total(Of(cache, name), since, 0), Total(Moved(Of(cache, name), ts, boundary), since, 0));
  }

  /** One cached record that is newer than the flush is filed too early exactly for the resets between the two. */
  lemma NewerThanFlush(reset: ResetSetting, ts: nat, td: TrafficData, since: nat)
    requires 1 <= reset.day <= 31 && 0 <= reset.clock < DAY
    requires ts < td.timestamp && td.bytes != ZERO
    requires IsReset(since, reset.day, reset.clock, reset.offset) && since >= ResetBoundary(reset, ts) > 0
    ensures Total([td], since, 0) != Total(Moved([td], ts, ResetBoundary(reset, ts)), since, 0) <==> ts < since <= td.timestamp
  {
    LastResetIsGreatest(reset.day, reset.clock, reset.offset, ts);
    MovedSinceReset([td], ts, ResetBoundary(reset, ts), since);
    assert [td][..0] == [];
    PlusLaws(td.bytes, ZERO, ZERO);
    PlusLaws(ZERO, ZERO, ZERO);
  }

  // ---------- whole runs ----------

  datatype Event = Sample(ios: seq<Interface>, at: nat) | Flush(ts: nat)

  /** The last counters of an interface after a run. */
  function LatestInRun(events: seq<Event>, name: string, last: Reading): Reading
  {
    if events == [] then last
    else
      var before := LatestInRun(events[..|events| - 1], name, last);
      match events[|events| - 1]
      case Flush(_) => before
      case Sample(ios, _) => Latest(ios, name, before)
  }

  /** The first counters known of it: from before the run, or from its first sample in it. */
  function FirstInRun(events: seq<Event>, name: string, last: Reading): Reading
  {
    if events == [] then last
    else
      var before := FirstInRun(events[..|events| - 1], name, last);
      match events[|events| - 1]
      case Flush(_) => before
      case Sample(ios, _) => if before.Seen? then before else First(ios, name, Unseen)
  }

  /** What the samples of a run are worth. */
  function ChargeInRun(events: seq<Event>, name: string, last: Reading): Bytes
  {
    if events == [] then ZERO
    else
      var earlier := events[..|events| - 1];
      match events[|events| - 1]
      case Flush(_) => ChargeInRun(earlier, name, last)
      case Sample(ios, _) => Plus(ChargeInRun(earlier, name, last), Charge(ios, name, LatestInRun(earlier, name, last)))
  }

  /** Its counters never fall during a run. */
  predicate SteadyRun(events: seq<Event>, name: string, last: Reading)
  {
    if events == [] then true
    else
      var earlier := events[..|events| - 1];
      SteadyRun(earlier, name, last) &&
      match events[|events| - 1]
      case Flush(_) => true
      case Sample(ios, _) => Steady(ios, name, LatestInRun(earlier, name, last))
  }

  /** Flushes do not touch the counters. */
  lemma FlushesAreSteady(events: seq<Event>, ts: nat, name: string, last: Reading)
    ensures SteadyRun(events + [Flush(ts)], name, last) <==> SteadyRun(events, name, last)
  {
    assert (events + [Flush(ts)])[..|events|] == events;
  }

  /** An interface whose counters never fall is charged its last counters minus its first, wherever the run
      samples it first. */
  lemma {:induction false} SteadyRunCharge(events: seq<Event>, name: string, last: Reading)
    requires SteadyRun(events, name, last)
    ensures Leads(FirstInRun(events, name, last), ChargeInRun(events, name, last), LatestInRun(events, name, last))
  {
    hide Plus, First, Latest, Charge, Steady;
    PlusZero();
    if events == [] {
    } else {
      var earlier := events[..|events| - 1];
      SteadyRunCharge(earlier, name, last);
      var mid := LatestInRun(earlier, name, last);
      match events[|events| - 1]
      case Flush(_) =>
      case Sample(ios, _) =>
        SteadyCharge(ios, name, mid);
        if mid.Seen? {
          FirstKeeps(ios, name, mid);
        }
        LeadsOn(FirstInRun(earlier, name, last), ChargeInRun(earlier, name, last), mid,
                First(ios, name, mid), Charge(ios, name, mid), Latest(ios, name, mid));
    }
  }

  /** The events as far as they concern one interface. */
  ghost function HeardInRun(nics: seq<string>, events: seq<Event>, name: string): seq<Event>
  {
    if Monitored(nics, name) then events else []
  }

  /** What a run does to one interface. */
  ghost predicate Ran(nics: seq<string>, used: Bytes, last: Reading, used': Bytes, last': Reading, events: seq<Event>, name: string)
  {
    var heard := HeardInRun(nics, events, name);
    last' == LatestInRun(heard, name, last) && used' == Plus(used, ChargeInRun(heard, name, last))
  }

  lemma SampleRuns(nics: seq<string>, store: Samples, cache: Samples, last: map<string, Bytes>, cache': Samples, last': map<string, Bytes>,
                   used0: Bytes, last0: Reading, events: seq<Event>, i: nat, name: string)
    requires i < |events| && events[i].Sample?
    requires Ran(nics, used0, last0, Used(store, cache, name, 0, 0), LastOf(last, name), events[..i], name)
    requires Sampled(nics, store, cache, last, cache', last', events[i].ios, events[i].at, name)
    ensures Ran(nics, used0, last0, Used(store, cache', name, 0, 0), LastOf(last', name), events[..i + 1], name)
  {
    hide Plus, Used, LastOf;
    assert events[..i + 1][..i] == events[..i];
    PlusZero();
    PlusLaws(used0, ChargeInRun(events[..i], name, last0), Charge(events[i].ios, name, LastOf(last, name)));
  }

  lemma FlushRuns(nics: seq<string>, used: Bytes, last: Reading, used': Bytes, last': Reading, events: seq<Event>, i: nat, name: string)
    requires i < |events| && events[i].Flush? && Ran(nics, used, last, used', last', events[..i], name)
    ensures Ran(nics, used, last, used', last', events[..i + 1], name)
  {
    assert events[..i + 1][..i] == events[..i];
  }

  /** Any interleaving of samples and flushes records, in store and cache together, what the samples are worth.
      So an interface whose counters never fall has recorded in the run exactly its last counters minus its
      first, whether it was known before the run or is first sampled in it. */
  method Run(net: NetStatic, events: seq<Event>)
    modifies net
    ensures net.nics == old(net.nics) && net.reset == old(net.reset)
    ensures forall name :: Ran(net.nics, old(net.Usage(name, 0, 0)), old(net.Last(name)), net.Usage(name, 0, 0), net.Last(name), events, name)
    ensures forall name :: net.Allowed(name) && SteadyRun(events, name, old(net.Last(name))) ==>
              match FirstInRun(events, name, old(net.Last(name)))
              case Unseen => name !in net.lastCounters && net.Usage(name, 0, 0) == old(net.Usage(name, 0, 0))
              case Seen(first) => name in net.lastCounters && Plus(net.Usage(name, 0, 0), first) == Plus(old(net.Usage(name, 0, 0)), net.lastCounters[name])
    ensures events != [] && events[|events| - 1].Flush? ==> net.cache == map[]
  {
    PlusZero();
    for i := 0 to |events|
      invariant net.nics == old(net.nics) && net.reset == old(net.reset)
      invariant i > 0 && events[i - 1].Flush? ==> net.cache == map[]
      invariant forall name :: Ran(net.nics, old(net.Usage(name, 0, 0)), old(net.Last(name)), net.Usage(name, 0, 0), net.Last(name), events[..i], name)
    {
      hide Ran, Sampled, Folded, Used, LastOf, ResetBoundary;
      ghost var cache, last := net.cache, net.lastCounters;
      match events[i]
      case Sample(ios, at) =>
        net.SampleOnce(ios, at);
        forall name
          ensures Ran(net.nics, old(net.Usage(name, 0, 0)), old(net.Last(name)), net.Usage(name, 0, 0), net.Last(name), events[..i + 1], name)
        {
          SampleRuns(net.nics, net.store, cache, last, net.cache, net.lastCounters, old(net.Usage(name, 0, 0)), old(net.Last(name)), events, i, name);
        }
      case Flush(ts) =>
        net.FlushCache(ts);
        forall name
          ensures Ran(net.nics, old(net.Usage(name, 0, 0)), old(net.Last(name)), net.Usage(name, 0, 0), net.Last(name), events[..i + 1], name)
        {
          FlushRuns(net.nics, old(net.Usage(name, 0, 0)), old(net.Last(name)), net.Usage(name, 0, 0), net.Last(name), events, i, name);
        }
    }
    assert events[..|events|] == events;
    forall name | net.Allowed(name) && SteadyRun(events, name, old(net.Last(name)))
      ensures match FirstInRun(events, name, old(net.Last(name)))
              case Unseen => name !in net.lastCounters && net.Usage(name, 0, 0) == old(net.Usage(name, 0, 0))
              case Seen(first) => name in net.lastCounters && Plus(net.Usage(name, 0, 0), first) == Plus(old(net.Usage(name, 0, 0)), net.lastCounters[name])
    {
      SteadyUsage(net.nics, old(net.Usage(name, 0, 0)), old(net.Last(name)), net.Usage(name, 0, 0), net.Last(name), events, name);
    }
  }

  lemma SteadyUsage(nics: seq<string>, used: Bytes, last: Reading, used': Bytes, last': Reading, events: seq<Event>, name: string)
    requires Ran(nics, used, last, used', last', events, name) && Monitored(nics, name) && SteadyRun(events, name, last)
    ensures match FirstInRun(events, name, last)
            case Unseen => last' == Unseen && used' == used
            case Seen(first) => last'.Seen? && Plus(used', first) == Plus(used, last'.counters)
  {
    hide FirstInRun, LatestInRun, ChargeInRun, SteadyRun, Plus;
    SteadyRunCharge(events, name, last);
    PlusZero();
    var first := FirstInRun(events, name, last);
    if first.Seen? {
      PlusLaws(used, ChargeInRun(events, name, last), first.counters);
    }
  }
}
