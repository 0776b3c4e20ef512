/** The monthly traffic reset: agent/utils/utils.go (GetLastResetInstant) and
backend/database/clients/traffic_allowance.go (currentTrafficCycle).

Instants are whole seconds since 1970-01-01 UTC, days are numbered from that date, and a month is
12 * year + (month - 1).  A location is a fixed offset from UTC in seconds. */
module ResetClock {

  const DAY: int := 86400
  const SHANGHAI: int := 8 * 3600

  // ---------- the proleptic Gregorian calendar ----------

  predicate Leap(year: int)
  {
    year % 4 == 0 && (year % 100 != 0 || year % 400 == 0)
  }

  function MonthLength(month: int): int
  {
    match month % 12
    case 1 => if Leap(month / 12) then 29 else 28
    case 3 => 30
    case 5 => 30
    case 8 => 30
    case 10 => 30
    case _ => 31
  }

  const EPOCH: int := 12 * 1970

  /** The day number of the first of a month: months follow each other without gaps, and January 1970
      starts on day zero. */
  function MonthStart(month: int): int
    decreases if month < EPOCH then EPOCH - month else month - EPOCH
  {
    if month == EPOCH then 0
    else if month > EPOCH then MonthStart(month - 1) + MonthLength(month - 1)
    else MonthStart(month + 1) - MonthLength(month)
  }

  lemma MonthsTile(month: int)
    ensures MonthStart(month + 1) == MonthStart(month) + MonthLength(month)
    ensures 28 <= MonthLength(month) <= 31
  {
  }

  lemma {:induction false} MonthsRise(m: int, n: int)
    requires m <= n
    ensures MonthStart(m) + 28 * (n - m) <= MonthStart(n)
    decreases n - m
  {
    if m < n {
      MonthsRise(m, n - 1);
      MonthsTile(n - 1);
    }
  }

  /** The month a day falls in, searched from `guess`. */
  function Seek(day: int, guess: int): (month: int)
    ensures MonthStart(month) <= day < MonthStart(month + 1)
    decreases day < MonthStart(guess), if day < MonthStart(guess) then MonthStart(guess) - day else day - MonthStart(guess)
  {
    hide MonthStart, MonthLength;
    MonthsTile(guess - 1);
    MonthsTile(guess);
    if day < MonthStart(guess) then Seek(day, guess - 1)
    else if day >= MonthStart(guess + 1) then Seek(day, guess + 1)
    else guess
  }

  function MonthOf(day: int): (month: int)
    ensures MonthStart(month) <= day < MonthStart(month + 1)
  {
    Seek(day, EPOCH)
  }

  /** Each day falls in one month. */
  lemma MonthOfIsUnique(day: int, month: int)
    requires MonthStart(month) <= day < MonthStart(month + 1)
    ensures MonthOf(day) == month
  {
    var m := MonthOf(day);
    if m < month {
      MonthsRise(m + 1, month);
    } else if month < m {
      MonthsRise(month + 1, m);
    }
  }

  // ---------- the program ----------

  /** The day of the month on which a month resets: the last day when the month is too short. */
  function ActualResetDay(month: int, resetDay: int): int
    requires 1 <= resetDay <= 31
  {
    var firstDayOfNextMonth := MonthStart(month + 1);
    var lastDayOfMonth := firstDayOfNextMonth - 1 - MonthStart(MonthOf(firstDayOfNextMonth - 1)) + 1;
    if resetDay > lastDayOfMonth then lastDayOfMonth else resetDay
  }

  /** actualResetInstant; `clock` is the reset's second of the day. */
  function ActualResetInstant(month: int, resetDay: int, clock: int, offset: int): int
    requires 1 <= resetDay <= 31
  {
    (MonthStart(month) + ActualResetDay(month, resetDay) - 1) * DAY + clock - offset
  }

  function LocalDay(instant: int, offset: int): int
  {
    (instant + offset) / DAY
  }

  /** GetLastResetInstant. */
  function GetLastResetInstant(resetDay: int, clock: int, offset: int, now: int): int
  {
    if resetDay < 1 || resetDay > 31 then now
    else
      var month := MonthOf(LocalDay(now, offset));
      var current := ActualResetInstant(month, resetDay, clock, offset);
      if now >= current then current else ActualResetInstant(month - 1, resetDay, clock, offset)
  }

  datatype Cycle = NoCycle | StartsOn(day: int)

  /** The day number of cycleBoundary. */
  function CycleBoundary(month: int, resetDay: int): int
    requires 1 <= resetDay
  {
    MonthStart(month) + (if resetDay > MonthLength(month) then MonthLength(month) else resetDay) - 1
  }

  /** currentTrafficCycle, where AddDate(0, -1, 0) keeps the day of the month and lets it spill over. */
  function CurrentTrafficCycle(resetDay: int, now: int): Cycle
  {
    if resetDay < 1 || resetDay > 31 then NoCycle
    else
      var today := LocalDay(now, SHANGHAI);
      var month := MonthOf(today);
      if today >= CycleBoundary(month, resetDay) then StartsOn(CycleBoundary(month, resetDay))
      else
        var sameDayLastMonth := MonthStart(month - 1) + (today - MonthStart(month));
        StartsOn(CycleBoundary(MonthOf(sameDayLastMonth), resetDay))
  }

  // ---------- properties ----------

  lemma ActualResetDayInMonth(month: int, resetDay: int)
    requires 1 <= resetDay <= 31
    ensures ActualResetDay(month, resetDay) == if resetDay > MonthLength(month) then MonthLength(month) else resetDay
  {
    MonthsTile(month);
    MonthOfIsUnique(MonthStart(month + 1) - 1, month);
  }

  // ---------- the calendar, computed ----------

  /** The day number of the first of a month in closed form: years are counted from March, so that the leap day comes
      last and months follow a rule of fifths. */
  function CivilDay(month: int): int
  {
    var year := if month % 12 < 2 then month / 12 - 1 else month / 12;
    var monthFromMarch := (month + 10) % 12;
    365 * year + year / 4 - year / 100 + year / 400 + (153 * monthFromMarch + 2) / 5 - 719468
  }

  lemma LeapDays(year: int)
    ensures year / 4 - (year - 1) / 4 == (if year % 4 == 0 then 1 else 0)
    ensures year / 100 - (year - 1) / 100 == (if year % 100 == 0 then 1 else 0)
    ensures year / 400 - (year - 1) / 400 == (if year % 400 == 0 then 1 else 0)
    ensures year % 100 == 0 ==> year % 4 == 0
    ensures year % 400 == 0 ==> year % 100 == 0
  {
  }

  /** The days of the year, from March on, before a month. */
  function DaysFromMarch(m: int): int
  {
    (153 * ((m + 10) % 12) + 2) / 5
  }

  lemma MonthsFromMarch(m: int)
    requires 0 <= m < 12
    ensures DaysFromMarch(if m == 11 then 0 else m + 1) - DaysFromMarch(m) ==
              if m == 1 then -337 else if m == 3 || m == 5 || m == 8 || m == 10 then 30 else 31
  {
    if m == 0 {
    } else if m == 1 {
    } else if m == 2 {
    } else if m == 3 {
    } else if m == 4 {
    } else if m == 5 {
    } else if m == 6 {
    } else if m == 7 {
    } else if m == 8 {
    } else if m == 9 {
    } else if m == 10 {
    }
  }

  function CivilIn(year: int, m: int): int
  {
    var y := if m < 2 then year - 1 else year;
    365 * y + y / 4 - y / 100 + y / 400 + DaysFromMarch(m) - 719468
  }

  lemma CivilIs(year: int, m: int)
    requires 0 <= m < 12
    ensures CivilDay(12 * year + m) == CivilIn(year, m)
  {
    assert (12 * year + m) / 12 == year && (12 * year + m) % 12 == m;
    assert (12 * year + m + 10) % 12 == (m + 10) % 12;
  }

  lemma LengthIn(year: int, m: int)
    requires 0 <= m < 12
    ensures MonthLength(12 * year + m) == if m == 1 then (if Leap(year) then 29 else 28) else if m == 3 || m == 5 || m == 8 || m == 10 then 30 else 31
  {
    assert (12 * year + m) / 12 == year && (12 * year + m) % 12 == m;
  }

  lemma CivilStepIn(year: int, m: int)
    requires 0 <= m < 12
    ensures CivilIn(if m == 11 then year + 1 else year, if m == 11 then 0 else m + 1) - CivilIn(year, m)
         == if m == 1 then (if Leap(year) then 29 else 28) else if m == 3 || m == 5 || m == 8 || m == 10 then 30 else 31
  {
    hide DaysFromMarch;
    MonthsFromMarch(m);
    if m == 1 {
      LeapDays(year);
    }
  }

  lemma CivilStep(month: int)
    ensures CivilDay(month + 1) - CivilDay(month) == MonthLength(month)
  {
    hide CivilDay, CivilIn, MonthLength, Leap;
    var year, m := month / 12, month % 12;
    assert month == 12 * year + m;
    CivilIs(year, m);
    CivilStepIn(year, m);
    LengthIn(year, m);
    if m == 11 {
      CivilIs(year + 1, 0);
      assert 12 * (year + 1) + 0 == month + 1;
    } else {
      CivilIs(year, m + 1);
      assert 12 * year + (m + 1) == month + 1;
    }
  }

  /** The calendar of the model is the Gregorian one. */
  lemma {:induction false} MonthStartIsCivil(month: int)
    ensures MonthStart(month) == CivilDay(month)
    decreases if month < EPOCH then EPOCH - month else month - EPOCH
  {
    hide CivilDay, MonthLength;
    if month == EPOCH {
      EpochIsZero();
    } else if month > EPOCH {
      MonthStartIsCivil(month - 1);
      CivilStep(month - 1);
    } else {
      MonthStartIsCivil(month + 1);
      CivilStep(month);
    }
  }

  lemma EpochIsZero()
    ensures CivilDay(EPOCH) == 0
  {
  }

  /** A month's reset happens at the asked second of the asked day, local time, or of the month's last day. */
  lemma ResetTime(month: int, resetDay: int, clock: int, offset: int)
    requires 1 <= resetDay <= 31
    ensures var last := CivilDay(month + 1) - CivilDay(month);
            ActualResetInstant(month, resetDay, clock, offset) + offset
            == (CivilDay(month) + (if resetDay > last then last else resetDay) - 1) * 86400 + clock
  {
    hide CivilDay, MonthLength;
    ActualResetDayInMonth(month, resetDay);
    MonthStartIsCivil(month);
    CivilStep(month);
  }

  /** Without a day to reset on, now is the last reset. */
  lemma NoResetDay(resetDay: int, clock: int, offset: int, now: int)
    requires resetDay < 1 || 31 < resetDay
    ensures GetLastResetInstant(resetDay, clock, offset, now) == now && CurrentTrafficCycle(resetDay, now) == NoCycle
  {
  }

  /** Each month has one reset and it happens inside that month, local time. */
  lemma ResetInsideItsMonth(month: int, resetDay: int, clock: int, offset: int)
    requires 1 <= resetDay <= 31 && 0 <= clock < DAY
    ensures MonthStart(month) <= LocalDay(ActualResetInstant(month, resetDay, clock, offset), offset) < MonthStart(month + 1)
    ensures MonthStart(month) * DAY <= ActualResetInstant(month, resetDay, clock, offset) + offset < MonthStart(month + 1) * DAY
  {
    ActualResetDayInMonth(month, resetDay);
    MonthsTile(month);
  }

  lemma ResetsRise(m: int, n: int, resetDay: int, clock: int, offset: int)
    requires 1 <= resetDay <= 31 && 0 <= clock < DAY && m < n
    ensures ActualResetInstant(m, resetDay, clock, offset) < ActualResetInstant(n, resetDay, clock, offset)
  {
    ResetInsideItsMonth(m, resetDay, clock, offset);
    ResetInsideItsMonth(n, resetDay, clock, offset);
    MonthsRise(m + 1, n);
  }

  ghost predicate IsReset(instant: int, resetDay: int, clock: int, offset: int)
    requires 1 <= resetDay <= 31
  {
    exists month :: ActualResetInstant(month, resetDay, clock, offset) == instant
  }

  /** Resets of earlier months are past, those of later months are still to come. */
  lemma ResetAgainstNow(m: int, resetDay: int, clock: int, offset: int, now: int)
    requires 1 <= resetDay <= 31 && 0 <= clock < DAY
    ensures m < MonthOf(LocalDay(now, offset)) ==> ActualResetInstant(m, resetDay, clock, offset) <= now
    ensures m > MonthOf(LocalDay(now, offset)) ==> ActualResetInstant(m, resetDay, clock, offset) > now
  {
    var month := MonthOf(LocalDay(now, offset));
    var reset := LocalDay(ActualResetInstant(m, resetDay, clock, offset), offset);
    ResetInsideItsMonth(m, resetDay, clock, offset);
    if m < month {
      MonthsRise(m + 1, month);
      EarlierDay(ActualResetInstant(m, resetDay, clock, offset), now, offset);
    } else if m > month {
      MonthsRise(month + 1, m);
      EarlierDay(now, ActualResetInstant(m, resetDay, clock, offset), offset);
    }
  }

  lemma EarlierDay(s: int, t: int, offset: int)
    ensures LocalDay(s, offset) < LocalDay(t, offset) ==> s < t
  {
  }

  lemma NoLaterReset(m: int, resetDay: int, clock: int, offset: int, now: int)
    requires 1 <= resetDay <= 31 && 0 <= clock < DAY
    requires ActualResetInstant(m, resetDay, clock, offset) <= now
    ensures ActualResetInstant(m, resetDay, clock, offset) <= GetLastResetInstant(resetDay, clock, offset, now)
  {
    var month := MonthOf(LocalDay(now, offset));
    ResetAgainstNow(m, resetDay, clock, offset, now);
    if m < month {
      ResetsRise(m, month, resetDay, clock, offset);
      if m < month - 1 {
        ResetsRise(m, month - 1, resetDay, clock, offset);
      }
    }
  }

  /** The result is the greatest reset instant that is not after `now`. */
  lemma LastResetIsGreatest(resetDay: int, clock: int, offset: int, now: int)
    requires 1 <= resetDay <= 31 && 0 <= clock < DAY
    ensures GetLastResetInstant(resetDay, clock, offset, now) <= now
    ensures IsReset(GetLastResetInstant(resetDay, clock, offset, now), resetDay, clock, offset)
    ensures forall t :: IsReset(t, resetDay, clock, offset) && t <= now ==> t <= GetLastResetInstant(resetDay, clock, offset, now)
  {
    ResetAgainstNow(MonthOf(LocalDay(now, offset)) - 1, resetDay, clock, offset, now);
    forall t | IsReset(t, resetDay, clock, offset) && t <= now
      ensures t <= GetLastResetInstant(resetDay, clock, offset, now)
    {
      var m :| ActualResetInstant(m, resetDay, clock, offset) == t;
      NoLaterReset(m, resetDay, clock, offset, now);
    }
  }

  /** The day of the month, counted from one. */
  function DayOfMonth(instant: int, offset: int): int
  {
    LocalDay(instant, offset) - MonthStart(MonthOf(LocalDay(instant, offset))) + 1
  }

  /** At midnight in Shanghai the agent's reset of a month is the panel's boundary of that month. */
  lemma BoundaryIsReset(month: int, resetDay: int)
    requires 1 <= resetDay <= 31
    ensures ActualResetInstant(month, resetDay, 0, SHANGHAI) == CycleBoundary(month, resetDay) * DAY - SHANGHAI
    ensures LocalDay(ActualResetInstant(month, resetDay, 0, SHANGHAI), SHANGHAI) == CycleBoundary(month, resetDay)
    ensures MonthStart(month) <= CycleBoundary(month, resetDay) < MonthStart(month + 1)
  {
    ActualResetDayInMonth(month, resetDay);
    MonthsTile(month);
  }

  /** The month that AddDate(0, -1, 0) reaches from a day. */
  lemma MonthBefore(day: int)
    ensures var month := MonthOf(day);
            var d := day - MonthStart(month) + 1;
            MonthOf(MonthStart(month - 1) + d - 1) == if d > MonthLength(month - 1) then month else month - 1
  {
    var month := MonthOf(day);
    var d := day - MonthStart(month) + 1;
    MonthsTile(month);
    MonthsTile(month - 1);
    MonthOfIsUnique(MonthStart(month - 1) + d - 1, if d > MonthLength(month - 1) then month else month - 1);
  }

  /** Which month's boundary the panel names. */
  lemma PanelCycle(resetDay: int, now: int, month: int)
    requires 1 <= resetDay <= 31 && month == MonthOf(LocalDay(now, SHANGHAI))
    ensures CurrentTrafficCycle(resetDay, now) == StartsOn(CycleBoundary(
              if LocalDay(now, SHANGHAI) >= CycleBoundary(month, resetDay) || DayOfMonth(now, SHANGHAI) > MonthLength(month - 1)
              then month else month - 1, resetDay))
  {
    hide MonthStart, MonthLength, MonthOf, CycleBoundary;
    MonthBefore(LocalDay(now, SHANGHAI));
  }

  /** On which month's boundary the agent reset last. */
  lemma AgentResetDay(resetDay: int, now: int, month: int)
    requires 1 <= resetDay <= 31 && month == MonthOf(LocalDay(now, SHANGHAI))
    ensures LocalDay(GetLastResetInstant(resetDay, 0, SHANGHAI, now), SHANGHAI) == CycleBoundary(
              if LocalDay(now, SHANGHAI) >= CycleBoundary(month, resetDay) then month else month - 1, resetDay)
  {
    BoundaryIsReset(month, resetDay);
    BoundaryIsReset(month - 1, resetDay);
    NotBeforeMidnight(now, CycleBoundary(month, resetDay));
  }

  lemma NotBeforeMidnight(now: int, day: int)
    ensures now >= day * DAY - SHANGHAI <==> LocalDay(now, SHANGHAI) >= day
  {
  }

  /** The panel and the agent name the same start of the cycle, except on a day of the month that last
      month did not have and that comes before this month's reset. */
  lemma CycleAgreesWithReset(resetDay: int, now: int, month: int)
    requires 1 <= resetDay <= 31 && month == MonthOf(LocalDay(now, 28800))
    ensures CurrentTrafficCycle(resetDay, now) == StartsOn(LocalDay(GetLastResetInstant(resetDay, 0, 28800, now), 28800))
            <==> !(MonthLength(month - 1) < DayOfMonth(now, 28800) < ActualResetDay(month, resetDay))
  {
    PanelCycle(resetDay, now, month);
    AgentResetDay(resetDay, now, month);
    ActualResetDayInMonth(month, resetDay);
    BoundaryIsReset(month, resetDay);
    BoundaryIsReset(month - 1, resetDay);
  }

  /** On 29 March of any common year, with reset day 31, the agent last reset on 28 February and the panel
      says 31 March, two days ahead. */
  lemma CycleInTheFuture(march: int, now: int)
    requires march % 12 == 2 && !Leap(march / 12) && LocalDay(now, SHANGHAI) == MonthStart(march) + 28
    ensures LocalDay(GetLastResetInstant(31, 0, SHANGHAI, now), SHANGHAI) == MonthStart(march - 1) + 27
    ensures CurrentTrafficCycle(31, now) == StartsOn(MonthStart(march) + 30)
  {
    var today := LocalDay(now, SHANGHAI);
    MonthsTile(march);
    MonthOfIsUnique(today, march);
    PanelCycle(31, now, march);
    AgentResetDay(31, now, march);
    assert march / 12 == (march - 1) / 12 && (march - 1) % 12 == 1;
  }
}
