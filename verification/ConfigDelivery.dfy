/** Versioned delivery of settings from the panel to an agent: backend/database/clients/deployment_profile.go on
one side, agent/server/runtime_config_delivery.go on the other, and between them messages that may be lost,
repeated and reordered. */
module ConfigDelivery {
  import opened RuntimeConfig
  import M = Masking

  /** Revisions are unsigned 64-bit numbers. */
  const REVISIONS: nat := 0x1_0000_0000_0000_0000

  datatype Status = Blank | Saved | Sent | Applied | Failed

  datatype Row = Row(profile: Profile, revision: nat, status: Status, error: string)

  /** A result an agent reports; event 0 is no event. */
  datatype Result = Result(revision: nat, event: nat, status: Status, error: string, hermes: Option<bool>)

  /** Settings on their way to the agent; revision 0 is unversioned. */
  datatype Message = Message(revision: nat, params: Params, event: nat)

  /** One upload: what the agent runs with, and its pending result. */
  datatype Report = Report(settings: Settings, result: Option<Result>)

  predicate Acceptable(result: Result)
  {
    result.revision != 0 && result.status in {Applied, Failed}
  }

  /** The delivery of this revision is still to be finished. */
  predicate Awaits(row: Option<Row>, revision: nat)
  {
    revision != 0 && row.Some? && row.value.revision == revision && row.value.status in {Saved, Sent}
  }

  /** The result ends the delivery of this row: it is about the current revision, and it confirms Hermes where the
      profile wants it. */
  predicate Closes(row: Option<Row>, result: Result)
  {
    && Acceptable(result) && row.Some? && row.value.revision == result.revision
    && (result.status == Applied && row.value.profile.switches.enableHermesAI ==> result.hermes == Some(true))
  }

  /** The settings differ in what the network statistics depend on. */
  predicate NetworkDiffers(a: Settings, b: Settings)
  {
    a.monthRotate != b.monthRotate || a.filters.includeNics != b.filters.includeNics || a.filters.excludeNics != b.filters.excludeNics
  }

  /** A message without any other field than a reset day. */
  function OnlyDay(day: Option<int>): Params
  {
    Params(day, None, None, None, None, None, None, None)
  }

  lemma DayIsSet(c: Params, settings: Settings)
    ensures c == OnlyDay(c.monthRotate) && c.monthRotate.Some? && 0 <= c.monthRotate.value <= 31 ==>
              c.enableHermesAI.None? && Requested(c, settings) == Some(settings.(monthRotate := c.monthRotate.value))
  {
    if c == OnlyDay(c.monthRotate) && c.monthRotate.Some? {
      OnlyADay(c.monthRotate.value, settings);
    }
  }

  /** The message asks for nothing that the network statistics depend on and that is not so already. */
  ghost predicate AsksNothingNew(c: Params, settings: Settings)
  {
    && (c.monthRotate.Some? ==> c.monthRotate.value == settings.monthRotate)
    && (c.includeNics.Some? ==> M.TrimSpace(c.includeNics.value) == settings.filters.includeNics)
    && (c.excludeNics.Some? ==> M.TrimSpace(c.excludeNics.value) == settings.filters.excludeNics)
  }

  /** The fields are allowed, the helper takes its switch if there is one, and so do the network statistics. */
  ghost predicate Doable(c: Params, settings: Settings, spoolWorks: bool, networkWorks: bool)
  {
    MessageAllowed(c) && (c.enableHermesAI.Some? ==> spoolWorks) && (AsksNothingNew(c, settings) || networkWorks)
  }

  lemma NothingNewMeans(c: Params, settings: Settings)
    ensures Requested(c, settings).Some? ==>
              && (NetworkDiffers(Requested(c, settings).value, settings) <==> !AsksNothingNew(c, settings))
              && Requested(c, settings).value.monthRotate == if c.monthRotate.Some? then c.monthRotate.value else settings.monthRotate
  {
    RequestedMeans(c, settings);
    hide Requested;
  }

  /** What is asked for is sound, and the helper does not refuse. */
  predicate Reaches(c: Params, settings: Settings, spoolWorks: bool)
  {
    Requested(c, settings).Some? && (c.enableHermesAI.Some? ==> spoolWorks)
  }

  lemma ReachesMeans(c: Params, settings: Settings, spoolWorks: bool)
    ensures Reaches(c, settings, spoolWorks) <==> Requested(c, settings).Some? && (c.enableHermesAI.Some? ==> spoolWorks)
  {
  }

  lemma DoableMeans(c: Params, settings: Settings, spoolWorks: bool, networkWorks: bool)
    ensures Doable(c, settings, spoolWorks, networkWorks) <==>
            MessageAllowed(c) && (c.enableHermesAI.Some? ==> spoolWorks) && (AsksNothingNew(c, settings) || networkWorks)
  {
  }

  lemma RequestedSwitch(c: Params, settings: Settings)
    ensures Requested(c, settings).Some? ==>
              Requested(c, settings).value.switches.enableHermesAI == Or(c.enableHermesAI, settings.switches.enableHermesAI)
    ensures Or(c.enableHermesAI, settings.switches.enableHermesAI) ==
              if c.enableHermesAI.Some? then c.enableHermesAI.value else settings.switches.enableHermesAI
  {
  }

  /** The settings differ in what is thrown before the network statistics can refuse. */
  predicate Moves(next: Settings, settings: Settings)
  {
    next.switches.enableHermesAI != settings.switches.enableHermesAI || next.monthRotate != settings.monthRotate
  }

  /** The revision after `revision`, which skips 0 when the counter wraps. */
  function Next(revision: nat): nat
  {
    if revision + 1 >= REVISIONS then 1 else revision + 1
  }

  /** Revisions go up by one, and from the last unsigned 64-bit number to 1. */
  lemma NextMeans(revision: nat)
    requires revision <= 18446744073709551615
    ensures 0 < Next(revision) <= 18446744073709551615 && Next(revision) - revision in {1, 1 - 18446744073709551615}
  {
  }

  /** What the panel sends for a row. */
  function Effective(p: Profile, resetDay: Option<int>): Settings
  {
    RuntimeOf(WithDay(p, Or(resetDay, 0)))
  }

  /** The profile that adoption compares: the client's reset day replaces the profile's, if the client has one. */
  function Stated(p: Profile, resetDay: Option<int>): Option<Profile>
  {
    Normalize(if resetDay.Some? then WithDay(p, resetDay.value) else p)
  }

  function DayOf(p: Profile): int
  {
    if p.monthRotate.on then p.monthRotate.value else 0
  }

  lemma NormalInRange(p: Profile)
    ensures Normalize(p).Some? ==> var s := RuntimeOf(Normalize(p).value); 0 <= s.monthRotate <= 31 && IntervalAllowed(s.interval)
  {
  }

  lemma EffectiveParts(p: Profile, resetDay: Option<int>)
    ensures Effective(p, resetDay).monthRotate == if Or(resetDay, 0) > 0 then Or(resetDay, 0) else 0
    ensures Effective(p, resetDay).interval == if p.interval.on then p.interval.value else 3.0
    ensures Effective(p, resetDay).switches == p.switches && Effective(p, resetDay).filters == RuntimeOf(p).filters
  {
  }

  lemma DayIsKept(p: Profile)
    requires Normal(p)
    ensures WithDay(p, DayOf(p)) == p
  {
  }

  /** The reported settings close the delivery of profile `p`. */
  predicate Matches(p: Profile, resetDay: Option<int>, installation: string, c: Params)
  {
    var reported := FromRuntime(installation, c);
    && reported.Some?
    && Stated(p, resetDay).Some? && Stated(reported.value, resetDay).Some?
    && (p.switches.enableHermesAI ==> c.enableHermesAI.Some?)
    && RuntimeOf(Stated(p, resetDay).value) == RuntimeOf(Stated(reported.value, resetDay).value)
  }

  lemma StatedMatch(p: Profile, resetDay: Option<int>, installation: string, c: Params)
    requires Stated(p, resetDay).Some? && FromRuntime(installation, c).Some? && Stated(FromRuntime(installation, c).value, resetDay).Some?
    ensures Matches(p, resetDay, installation, c) <==>
            && (p.switches.enableHermesAI ==> c.enableHermesAI.Some?)
            && RuntimeOf(Stated(p, resetDay).value) == RuntimeOf(Stated(FromRuntime(installation, c).value, resetDay).value)
  {
  }

  predicate AlikeApartFromDay(a: Settings, b: Settings)
  {
    a.interval == b.interval && a.filters == b.filters && a.switches == b.switches
  }

  /** Settings `s`, reported in full, read like `runtime`, the reset day aside. */
  predicate Resembles(s: Settings, runtime: Settings)
  {
    FromRuntime("", All(s)).Some? && AlikeApartFromDay(RuntimeOf(FromRuntime("", All(s)).value), runtime)
  }

  lemma InstallationIsIdle(a: string, b: string, c: Params)
    ensures FromRuntime(a, c).Some? <==> FromRuntime(b, c).Some?
    ensures FromRuntime(a, c).Some? ==> RuntimeOf(FromRuntime(a, c).value) == RuntimeOf(FromRuntime(b, c).value)
  {
  }

  lemma ResemblesAnyway(installation: string, s: Settings, runtime: Settings)
    requires FromRuntime(installation, All(s)).Some? && AlikeApartFromDay(RuntimeOf(FromRuntime(installation, All(s)).value), runtime)
    ensures Resembles(s, runtime)
  {
    InstallationIsIdle("", installation, All(s));
  }

  lemma StatedKeepsTheRest(p: Profile, resetDay: Option<int>)
    requires Normal(p)
    ensures Stated(p, resetDay).Some? <==> Or(resetDay, 0) <= 31
    ensures Stated(p, resetDay).Some? ==>
              && Normal(Stated(p, resetDay).value) && Stated(p, resetDay).value.switches == p.switches
              && WithDay(Stated(p, resetDay).value, if resetDay.Some? then resetDay.value else DayOf(Stated(p, resetDay).value)) == Stated(p, resetDay).value
              && AlikeApartFromDay(RuntimeOf(Stated(p, resetDay).value), RuntimeOf(p))
              && RuntimeOf(Stated(p, resetDay).value).monthRotate ==
                 if resetDay.Some? then (if resetDay.value > 0 then resetDay.value else 0) else RuntimeOf(p).monthRotate
  {
    NormalizeTwice(if resetDay.Some? then WithDay(p, resetDay.value) else p);
  }

  /** Adoption compares everything but the reset day, for which it believes the client's own column. */
  lemma MatchForgivesTheDay(p: Profile, day: int, installation: string, c: Params)
    requires Normal(p) && day <= 31
    ensures Matches(p, Some(day), installation, c) <==>
            && FromRuntime(installation, c).Some?
            && (p.switches.enableHermesAI ==> c.enableHermesAI.Some?)
            && AlikeApartFromDay(RuntimeOf(FromRuntime(installation, c).value), Effective(p, Some(day)))
  {
    StatedKeepsTheRest(p, Some(day));
    match FromRuntime(installation, c)
    case None =>
    case Some(reported) =>
      FromRuntimeIsNormal(installation, c);
      StatedKeepsTheRest(reported, Some(day));
  }

  /** Without a reset day of the client's, adoption compares it with the rest; a day beyond 31 it never accepts. */
  lemma MatchWithoutTheClientsDay(p: Profile, day: int, installation: string, c: Params)
    requires Normal(p) && day > 31
    ensures Matches(p, None, installation, c) <==>
            && FromRuntime(installation, c).Some?
            && (p.switches.enableHermesAI ==> c.enableHermesAI.Some?)
            && RuntimeOf(FromRuntime(installation, c).value) == RuntimeOf(p)
    ensures !Matches(p, Some(day), installation, c)
  {
    if FromRuntime(installation, c).Some? {
      FromRuntimeIsNormal(installation, c);
    }
    StatedKeepsTheRest(p, Some(day));
  }

  lemma FromRuntimeIsNormal(installation: string, c: Params)
    ensures FromRuntime(installation, c).Some? ==> Normal(FromRuntime(installation, c).value)
  {
    if FromRuntime(installation, c).Some? {
      NormalizeTwice(Profile(installation,
                             Toggle(Or(c.monthRotate, 0) > 0, Or(c.monthRotate, 0)),
                             Toggle(c.interval.Some? && c.interval.value != DEFAULT_INTERVAL, Or(c.interval, 0.0)),
                             ToggleOf(c.includeNics), ToggleOf(c.excludeNics), ToggleOf(c.includeMountpoints),
                             Switches(Or(c.memoryIncludeCache, false), Or(c.enableGPU, false), Or(c.enableHermesAI, false))));
    }
  }

  /** A report that closes a delivery comes from settings that read like the panel's. */
  lemma MatchResembles(p: Profile, resetDay: Option<int>, installation: string, s: Settings)
    requires Normal(p) && Matches(p, resetDay, installation, All(s))
    ensures Resembles(s, Effective(p, resetDay))
  {
    var reported := FromRuntime(installation, All(s)).value;
    InstallationIsIdle("", installation, All(s));
    FromRuntimeIsNormal(installation, All(s));
    StatedKeepsTheRest(p, resetDay);
    StatedKeepsTheRest(reported, resetDay);
  }

  /** A report that closes a delivery states the very settings the panel sends exactly when its reset day is the
      panel's. */
  lemma MatchIsEqualityUpToTheDay(p: Profile, day: int, installation: string, c: Params)
    requires Normal(p) && day <= 31 && Matches(p, Some(day), installation, c)
    ensures RuntimeOf(FromRuntime(installation, c).value) == Effective(p, Some(day)) <==>
            RuntimeOf(FromRuntime(installation, c).value).monthRotate == Effective(p, Some(day)).monthRotate
  {
    MatchForgivesTheDay(p, day, installation, c);
  }

  /** The day of the 15th is taken as delivered on the word of an agent that resets on the 1st. */
  lemma WrongDayIsBelieved() returns (p: Profile, c: Params)
    ensures Normal(p) && Matches(p, Some(15), "", c)
    ensures RuntimeOf(FromRuntime("", c).value).monthRotate == 1 && Effective(p, Some(15)).monthRotate == 15
  {
    var text := Toggle(false, "");
    p := Profile("", Toggle(true, 15), Toggle(false, 0.0), text, text, text, Switches(false, false, false));
    EmptyIsClean(1024);
    EmptyIsClean(2048);
    assert Normal(p);
    var s := RuntimeOf(p).(monthRotate := 1);
    c := All(s);
    ReportIsUnderstood("", s);
    MatchForgivesTheDay(p, 15, "", c);
  }

  /** What becomes of an agent's error text: trimmed, without control characters, at most 512 long. */
  function Sanitized(text: string): string
  {
    var t := Printable(M.TrimSpace(text));
    if |t| > 512 then t[..512] else t
  }

  function Printable(text: string): string
  {
    if text == "" then ""
    else (if text[0] < ' ' || text[0] == '\U{7F}' then "" else [text[0]]) + Printable(text[1..])
  }

  /** Each part of a text is treated by itself. */
  lemma {:induction false} PrintableParts(a: string, b: string)
    ensures Printable(a + b) == Printable(a) + Printable(b)
  {
    if a == "" {
      assert a + b == b;
    } else {
      var tail := a[1..] + b;
      assert a + b == [a[0]] + tail;
      PrintableParts(a[1..], b);
      assert Printable(a + b) == Printable([a[0]]) + Printable(tail) by {
        PrintableHead(a[0], tail);
      }
      assert Printable(a) == Printable([a[0]]) + Printable(a[1..]) by {
        assert a == [a[0]] + a[1..];
        PrintableHead(a[0], a[1..]);
      }
      hide Printable;
    }
  }

  lemma PrintableHead(c: char, rest: string)
    ensures Printable([c] + rest) == Printable([c]) + Printable(rest)
  {
    assert ([c] + rest)[1..] == rest && [c][1..] == "";
  }

  /** Of a character only control characters leave nothing. */
  lemma PrintableCharacter(c: char)
    ensures Printable([c]) == if ' ' <= c <= '~' || c > '\U{7F}' then [c] else []
  {
    assert [c][1..] == "";
  }

  /** The text is trimmed first; no control character is left and no more than the first 512 printable ones stay. */
  lemma SanitizedMeans(text: string)
    ensures |Sanitized(text)| <= 512 && Sanitized(text) <= Printable(M.TrimSpace(text))
    ensures |Sanitized(text)| < 512 ==> Sanitized(text) == Printable(M.TrimSpace(text))
  {
  }

  // ---------- the panel ----------

  datatype SaveResult = Refused | Stored(revision: nat, runtimeChanged: bool)

  datatype Adoption = Invalid | Created | Managed

  /** The stored deployment profile of one client, and its traffic_reset_day column. */
  class Profiles {
    var row: Option<Row>
    var resetDay: Option<int>
    /** The settings last given each revision. */
    ghost var issued: map<nat, Settings>
    ghost var wrapped: bool

    /** Profiles older than delivery tracking have revision 0. */
    constructor (legacy: Option<Profile>, resetDay: Option<int>)
      requires legacy.Some? ==> Normal(legacy.value)
      ensures Valid() && !wrapped && issued == map[] && (row.Some? ==> row.value.status == Blank)
    {
      row := match legacy case None => None case Some(p) => Some(Row(p, 0, Blank, ""));
      this.resetDay, issued, wrapped := resetDay, map[], false;
    }

    function Runtime(): Settings
      requires row.Some?
      reads this
    {
      Effective(row.value.profile, resetDay)
    }

    /** The revision of the row; without one the next is the first. */
    function LastRevision(): nat
      reads this
    {
      if row.Some? then row.value.revision else 0
    }

    ghost predicate Valid()
      reads this
    {
      && (row.Some? ==>
            && Normal(row.value.profile) && row.value.revision < REVISIONS
            && (row.value.revision == 0 ==> row.value.status == Blank)
            && (row.value.revision > 0 ==> row.value.revision in issued && issued[row.value.revision] == Runtime()))
      && (forall r :: r in issued ==> CleanFilters(issued[r].filters))
      && (!wrapped ==> forall r :: r in issued ==> row.Some? && 0 < r <= row.value.revision)
    }

    /** saveDeploymentProfileForDispatch.  Only a change the agent would notice, or a failed delivery, makes a new
        revision. */
    method Save(profile: Profile) returns (r: SaveResult)
      requires Valid()
      modifies this
      ensures Valid()
      ensures r == Refused <==> Normalize(profile).None?
      ensures r == Refused ==> unchanged(this)
      ensures !wrapped ==> !old(wrapped) && Extends(old(issued), issued)
      ensures r.Stored? ==> row.Some? && row.value.profile == Normalize(profile).value
      ensures r.Stored? ==> row.Some? && Runtime() == RuntimeOf(row.value.profile)
      ensures r.Stored? ==> row.Some? && r.revision == row.value.revision
      ensures r.Stored? ==> (r.runtimeChanged <==> !old(row.Some? && Runtime() == RuntimeOf(Normalize(profile).value) && row.value.status != Failed))
      ensures r.Stored? && !r.runtimeChanged ==>
                row == Some(old(row).value.(profile := row.value.profile)) && issued == old(issued) && wrapped == old(wrapped)
      ensures r.Stored? && r.runtimeChanged ==>
                && row == Some(Row(row.value.profile, Next(if old(row).Some? then old(row).value.revision else 0), Saved, ""))
                && issued == old(issued)[row.value.revision := Runtime()]
                && wrapped == (old(wrapped) || (old(row).Some? && row.value.revision <= old(row).value.revision))
    {
      hide Normalize, RuntimeOf, CleanFilters;
      var normalized := Normalize(profile);
      if normalized.None? {
        return Refused;
      }
      NormalizeTwice(profile);
      NormalIsClean(normalized.value);
      DayIsKept(normalized.value);
      var changed := true;
      var revision, status, error := 0, Blank, "";
      if row.Some? {
        changed := Runtime() != RuntimeOf(normalized.value) || row.value.status == Failed;
        revision, status, error := row.value.revision, row.value.status, row.value.error;
      }
      if changed {
        wrapped := wrapped || revision + 1 >= REVISIONS;
        revision, status, error := Next(revision), Saved, "";
        issued := issued[revision := RuntimeOf(normalized.value)];
      }
      resetDay := Some(DayOf(normalized.value));
      row := Some(Row(normalized.value, revision, status, error));
      r := Stored(revision, changed);
    }

    /** markDeploymentConfigSent: never touches another revision nor a finished delivery. */
    method MarkSent(revision: nat) returns (marked: bool)
      requires Valid()
      modifies `row
      ensures Valid()
      ensures marked <==> revision != 0 && old(row).Some? && old(row).value.revision == revision && old(row).value.status in {Saved, Sent}
      ensures row == if marked then Some(old(row).value.(status := Sent, error := "")) else old(row)
    {
      marked := Awaits(row, revision);
      if marked {
        row := Some(row.value.(status := Sent, error := ""));
      }
    }

    /** completeDeploymentConfig: only the current revision, and Hermes has to be confirmed where it is wanted. */
    method Complete(result: Result) returns (r: Option<bool>)
      requires Valid()
      modifies `row
      ensures Valid()
      ensures r == None <==> result.revision == 0 || result.status !in {Applied, Failed}
      ensures r == Some(true) <==>
                && r != None && old(row).Some? && old(row).value.revision == result.revision
                && (result.status == Applied && old(row).value.profile.switches.enableHermesAI ==> result.hermes == Some(true))
      ensures row == if r == Some(true)
                     then Some(old(row).value.(status := result.status, error := if result.status == Applied then "" else Sanitized(result.error)))
                     else old(row)
    {
      if result.revision == 0 || (result.status != Applied && result.status != Failed) {
        return None;
      }
      if row.None? || row.value.revision != result.revision {
        return Some(false);
      }
      if result.status == Applied && row.value.profile.switches.enableHermesAI && result.hermes != Some(true) {
        return Some(false);
      }
      row := Some(row.value.(status := result.status, error := if result.status == Applied then "" else Sanitized(result.error)));
      r := Some(true);
    }

    /** adoptDeploymentRuntimeConfig. */
    method Adopt(installation: string, c: Params) returns (r: Adoption)
      requires Valid()
      modifies this
      ensures Valid() && wrapped == old(wrapped) && (!wrapped ==> Extends(old(issued), issued))
      ensures r == Invalid <==>
              || FromRuntime(installation, c).None? || Stated(FromRuntime(installation, c).value, old(resetDay)).None?
              || (old(row).Some? && Stated(old(row).value.profile, old(resetDay)).None?)
      ensures r == Invalid ==> unchanged(this)
      ensures r == Created <==> r != Invalid && old(row).None?
      ensures r == Created ==>
                && row == Some(Row(Stated(FromRuntime(installation, c).value, old(resetDay)).value, 1, Applied, ""))
                && issued == old(issued)[1 := Runtime()]
                && AlikeApartFromDay(RuntimeOf(FromRuntime(installation, c).value), Runtime())
                && (old(resetDay).None? ==> Runtime() == RuntimeOf(FromRuntime(installation, c).value))
      ensures r == Managed ==> row.Some? && row.value.profile == old(row).value.profile && resetDay == old(resetDay)
      ensures r == Managed && Matches(old(row).value.profile, old(resetDay), installation, c) ==>
                row.value.status == Applied && row.value.revision == if old(row).value.revision == 0 then 1 else old(row).value.revision
      ensures r == Managed && !Matches(old(row).value.profile, old(resetDay), installation, c) && old(row).value.revision == 0 ==>
                row.value.status == Saved && row.value.revision == 1
      ensures r == Managed && !Matches(old(row).value.profile, old(resetDay), installation, c) && old(row).value.revision > 0 ==> row == old(row)
      ensures r == Managed && old(row).value.revision > 0 ==> issued == old(issued)
      ensures r == Managed && old(row).value.revision == 0 ==> issued == old(issued)[1 := Runtime()]
    {
      hide FromRuntime, Normalize, CleanFilters, RuntimeOf, WithDay, DayOf, Matches, Stated;
      var reported := FromRuntime(installation, c);
      if reported.None? {
        return Invalid;
      }
      FromRuntimeIsNormal(installation, c);
      var stated := Stated(reported.value, resetDay);
      if stated.None? {
        return Invalid;
      }
      StatedKeepsTheRest(reported.value, resetDay);
      if row.None? {
        NormalIsClean(stated.value);
        EffectiveParts(stated.value, resetDay);
        row := Some(Row(stated.value, 1, Applied, ""));
        if resetDay.None? {
          resetDay := Some(DayOf(stated.value));
        }
        issued := issued[1 := Runtime()];
        return Created;
      }
      var managed := Stated(row.value.profile, resetDay);
      if managed.None? {
        return Invalid;
      }
      StatedKeepsTheRest(row.value.profile, resetDay);
      NormalIsClean(row.value.profile);
      EffectiveParts(row.value.profile, resetDay);
      ghost var runtime := Runtime();
      StatedMatch(row.value.profile, resetDay, installation, c);
      if (!managed.value.switches.enableHermesAI || c.enableHermesAI.Some?) && RuntimeOf(managed.value) == RuntimeOf(stated.value) {
        var revision := if row.value.revision == 0 then 1 else row.value.revision;
        if row.value.revision != revision || row.value.status != Applied || row.value.error != "" {
          row := Some(row.value.(revision := revision, status := Applied, error := ""));
        }
      } else if row.value.revision == 0 {
        row := Some(row.value.(revision := 1, status := Saved, error := ""));
      }
      if old(row).value.revision == 0 {
        issued := issued[1 := runtime];
      }
      r := Managed;
    }

    /** getClientRuntimeConfig: what an upload is answered with. */
    function Current(): (m: Option<Message>)
      reads this
      ensures m.Some? ==> m.value.event == 0 && m.value.revision == LastRevision()
      ensures m.None? <==> row.None? && resetDay.None?
    {
      if row.Some? then Some(Message(row.value.revision, All(Runtime()), 0))
      else if resetDay.Some? then Some(Message(0, OnlyDay(resetDay), 0))
      else None
    }
  }

  // ---------- the agent ----------

  class Agent {
    var settings: Settings
    /** The switch in the helper's spool, and the reset day the network statistics were given. */
    var control: bool
    var clockDay: int
    var processed: nat
    var applied: nat
    var pending: Option<Result>
    /** The pending results that uploads still under way carry. */
    var inflight: set<Result>
    /** The last result of this run. */
    ghost var latest: Option<Result>
    /** The results of this run whose upload was answered. */
    ghost var heard: set<Result>
    /** Over all runs: which settings were in force when a revision was reported applied, and all settings. */
    ghost var applications: set<(nat, Settings)>
    ghost var ranWith: set<Settings>

    constructor (settings: Settings)
      ensures Valid() && applications == {} && heard == {} && inflight == {} && pending == None
      ensures this.settings == settings && InStep() && processed == 0
    {
      this.settings, control, clockDay := settings, settings.switches.enableHermesAI, settings.monthRotate;
      processed, applied, pending, inflight := 0, 0, None, {};
      latest, heard, applications, ranWith := None, {}, {}, {settings};
    }

    /** Some run of the agent applied the revision of an `applied` result. */
    ghost predicate Earned(r: Result)
      reads `applications
    {
      r.status == Applied ==> exists s :: (r.revision, s) in applications
    }

    /** Of each revision a run has one result; the pending one is the latest; it goes only when it was heard. */
    ghost predicate Valid()
      reads this
    {
      && settings in ranWith
      && applied <= processed
      && (latest.Some? ==> latest.value.revision == processed && latest.value.status in {Applied, Failed} && processed > 0 && Earned(latest.value))
      && (pending.Some? ==> pending == latest)
      && (pending.None? && latest.Some? ==> latest.value in heard)
      && (forall r :: r in inflight ==> Earned(r) && r.revision <= processed && (r.revision == processed ==> latest == Some(r)))
    }

    /** Helper and network statistics follow the settings. */
    predicate InStep()
      reads this
    {
      control == settings.switches.enableHermesAI && clockDay == settings.monthRotate
    }

    /** The process starts anew with the settings of its command line. */
    method Restart(settings: Settings)
      requires Valid()
      modifies this
      ensures Valid() && processed == applied == 0 && pending == None && inflight == {} && heard == {}
      ensures this.settings == settings && ranWith == old(ranWith) + {settings} && applications == old(applications)
      ensures InStep()
    {
      hide Earned;
      this.settings, control, clockDay := settings, settings.switches.enableHermesAI, settings.monthRotate;
      processed, applied, pending, inflight := 0, 0, None, {};
      latest, heard, ranWith := None, {}, ranWith + {settings};
    }

    /** applyRuntimeConfig.  The helper's spool and the network statistics may refuse.  A call that the network
        statistics refuse has already thrown the helper's switch and set the reset day. */
    method Apply(c: Params, spoolWorks: bool, networkWorks: bool) returns (ok: bool)
      requires Valid()
      modifies `settings, `ranWith, `control, `clockDay
      ensures Valid() && old(ranWith) <= ranWith
      ensures ok ==> Requested(c, old(settings)) == Some(settings)
      ensures ok ==> Overlays(c, old(settings), settings)
      ensures Reaches(c, old(settings), spoolWorks) <==> MessageAllowed(c) && (c.enableHermesAI.Some? ==> spoolWorks)
      ensures ok <==> Doable(c, old(settings), spoolWorks, networkWorks)
      ensures clockDay == if !MessageAllowed(c) || (c.enableHermesAI.Some? && !spoolWorks) || AsksNothingNew(c, old(settings)) then old(clockDay)
                          else if c.monthRotate.Some? then c.monthRotate.value else old(settings).monthRotate
      ensures c == OnlyDay(c.monthRotate) && c.monthRotate.Some? && 0 <= c.monthRotate.value <= 31 && networkWorks ==>
                ok && settings == old(settings).(monthRotate := c.monthRotate.value)
      ensures !ok ==> settings == old(settings)
      ensures control == if Reaches(c, old(settings), spoolWorks) && c.enableHermesAI.Some? then c.enableHermesAI.value else old(control)
      ensures old(InStep()) ==>
                (InStep() <==> ok || !Reaches(c, old(settings), spoolWorks) || !Moves(Requested(c, old(settings)).value, old(settings)))
    {
      hide *;
      RequestedMeans(c, settings);
      NothingNewMeans(c, settings);
      DoableMeans(c, settings, spoolWorks, networkWorks);
      DayIsSet(c, settings);
      RequestedSwitch(c, settings);
      ReachesMeans(c, settings, spoolWorks);
      ok := Carry(c.enableHermesAI, Requested(c, settings), spoolWorks, networkWorks);
    }

    /** Its second half: what is to be thrown and set once the settings to reach are known. */
    method Carry(switch: Option<bool>, next: Option<Settings>, spoolWorks: bool, networkWorks: bool) returns (ok: bool)
      requires Valid() && (next.Some? ==> next.value.switches.enableHermesAI == if switch.Some? then switch.value else settings.switches.enableHermesAI)
      modifies `settings, `ranWith, `control, `clockDay
      ensures Valid() && old(ranWith) <= ranWith
      ensures ok <==> next.Some? && (switch.Some? ==> spoolWorks) && (NetworkDiffers(next.value, old(settings)) ==> networkWorks)
      ensures ok ==> next == Some(settings)
      ensures !ok ==> settings == old(settings)
      ensures control == if next.Some? && (switch.Some? ==> spoolWorks) && switch.Some? then switch.value else old(control)
      ensures clockDay == if next.Some? && (switch.Some? ==> spoolWorks) && NetworkDiffers(next.value, old(settings))
                          then next.value.monthRotate else old(clockDay)
      ensures old(InStep()) ==>
                (InStep() <==> ok || next.None? || (switch.Some? && !spoolWorks) || !Moves(next.value, old(settings)))
    {
      hide Earned;
      if next.None? || (switch.Some? && !spoolWorks) {
        return false;
      }
      if switch.Some? {
        control := switch.value;
      }
      if next.value == settings {
        return true;
      }
      if NetworkDiffers(next.value, settings) {
        clockDay := next.value.monthRotate;
        if !networkWorks {
          return false;
        }
      }
      settings := next.value;
      ranWith := ranWith + {settings};
      ok := true;
    }

    /** processRuntimeConfig.  A revision is tried once in a run, and older ones are not tried after it. */
    method Process(m: Message, spoolWorks: bool, networkWorks: bool) returns (handled: bool)
      requires Valid()
      modifies this
      ensures Valid() && old(applications) <= applications && old(ranWith) <= ranWith
      ensures processed >= old(processed) && applied >= old(applied) && heard == old(heard) && inflight == old(inflight)
      ensures 0 < m.revision <= old(processed) ==> handled && settings == old(settings)
      ensures m.revision <= old(processed) ==>
                processed == old(processed) && applied == old(applied) && pending == old(pending) && applications == old(applications)
      ensures m.revision > old(processed) ==>
                && handled && processed == m.revision && pending.Some?
                && pending.value.revision == m.revision && pending.value.event == m.event
                && (pending.value.status == Applied <==> applied == m.revision)
                && (pending.value.status == Applied ==>
                      && Requested(m.params, old(settings)) == Some(settings)
                      && pending.value.hermes == Some(settings.switches.enableHermesAI)
                      && applications == old(applications) + {(m.revision, settings)})
                && (pending.value.status != Applied ==>
                      pending.value.status == Failed && settings == old(settings) && applied == old(applied) && applications == old(applications))
      ensures m.revision > old(processed) ==> (applied == m.revision <==> Doable(m.params, old(settings), spoolWorks, networkWorks))
      ensures m.revision > old(processed) && Requested(m.params, old(settings)).Some? && spoolWorks && networkWorks ==> applied == m.revision
      ensures m.revision == 0 ==> (handled <==> Doable(m.params, old(settings), spoolWorks, networkWorks))
      ensures m.revision == 0 && handled ==> Overlays(m.params, old(settings), settings)
      ensures m.revision == 0 && !handled ==> settings == old(settings)
      ensures old(InStep()) && m.revision > old(processed) && pending.Some? && pending.value.status == Applied ==> InStep()
    {
      hide Requested, Moves, NetworkDiffers, Overlays, AsksNothingNew, MessageAllowed;
      if m.revision > 0 && m.revision <= processed {
        return true;
      }
      var ok := Apply(m.params, spoolWorks, networkWorks);
      if m.revision == 0 {
        return ok;
      }
      processed := m.revision;
      var result;
      if ok {
        applied := m.revision;
        result := Result(m.revision, m.event, Applied, "", Some(settings.switches.enableHermesAI));
        applications := applications + {(m.revision, settings)};
        assert (m.revision, settings) in applications;
      } else {
        result := Result(m.revision, m.event, Failed, "", None);
      }
      latest := Some(result);
      SetPending(result);
      handled := true;
    }

    /** setPendingConfigResult: an older result never replaces a newer one. */
    method SetPending(result: Result)
      modifies `pending
      ensures pending == if old(pending).Some? && old(pending).value.revision > result.revision then old(pending) else Some(result)
    {
      if pending.Some? && pending.value.revision > result.revision {
        return;
      }
      pending := Some(result);
    }

    /** snapshotPendingConfigResult, for an upload that now is under way. */
    method Upload() returns (report: Report)
      requires Valid()
      modifies `inflight
      ensures Valid() && report == Report(settings, pending)
      ensures inflight == old(inflight) + if pending.Some? then {pending.value} else {}
    {
      report := Report(settings, pending);
      if pending.Some? {
        inflight := inflight + {pending.value};
      }
    }

    /** clearPendingConfigResult, after the upload that carried `sent` was answered: nothing but `sent` itself is
        cleared. */
    method ClearPending(sent: Result)
      requires Valid() && sent in inflight
      modifies `pending, `inflight, `heard
      ensures Valid() && heard == old(heard) + {sent} && inflight == old(inflight) - {sent}
      ensures pending == if old(pending) == Some(sent) then None else old(pending)
    {
      if pending.Some? && pending.value.revision == sent.revision && pending.value.status == sent.status && pending.value.event == sent.event {
        pending := None;
      }
      heard, inflight := heard + {sent}, inflight - {sent};
    }
  }

  /** An agent is asked for another reset day and the other position of the helper's switch, and the network
      statistics refuse: it keeps its settings, and helper and reset day have gone ahead. */
  method RefusedHalfway(settings: Settings, day: int) returns (agent: Agent)
    requires 0 <= day <= 31 && day != settings.monthRotate
    ensures fresh(agent) && agent.settings == settings
    ensures agent.control != settings.switches.enableHermesAI && agent.clockDay == day
  {
    agent := new Agent(settings);
    var c := Params(Some(day), None, None, None, None, None, None, Some(!settings.switches.enableHermesAI));
    var ok := agent.Apply(c, true, false);
  }

  // ---------- both, and the network ----------

  datatype Event =
    | AdminSaves(profile: Profile, event: nat, online: bool)
    | QueuePushes(message: Message)
    | AgentReceives(message: Message, spoolWorks: bool, networkWorks: bool)
    | AgentUploads
    | PanelReceives(report: Report, installation: string)
    | AgentHears(report: Report)
    | AgentRestarts(settings: Settings)

  /** What a revision meant stays what it means. */
  ghost predicate Extends(before: map<nat, Settings>, after: map<nat, Settings>)
  {
    forall r :: r in before ==> r in after && after[r] == before[r]
  }

  /** The panel's word for a revision: applied by the agent with these very settings, or, once revisions have
      wrapped, at least applied. */
  ghost predicate Confirmed(applications: set<(nat, Settings)>, revision: nat, runtime: Settings, wrapped: bool)
  {
    if wrapped then exists s :: (revision, s) in applications else (revision, runtime) in applications
  }

  /** Some report stated settings that read like `runtime`, the reset day aside. */
  ghost predicate Resembled(reports: set<Report>, runtime: Settings)
  {
    exists report :: report in reports && Resembles(report.settings, runtime)
  }

  /** The panel can make sense of the report. */
  ghost predicate Legible(report: Report, installation: string, resetDay: Option<int>)
  {
    && FromRuntime(installation, All(report.settings)).Some? && Or(resetDay, 0) <= 31
    && (report.result.Some? ==> Acceptable(report.result.value))
  }

  class Delivery {
    const panel: Profiles
    const agent: Agent
    /** Everything ever sent: a message may arrive at any time, any number of times, or never. */
    var messages: set<Message>
    var reports: set<Report>
    /** Uploads the panel has answered without an error. */
    var answered: set<Report>

    constructor (panel: Profiles, agent: Agent)
      requires panel.Valid() && !panel.wrapped && panel.issued == map[] && (panel.row.Some? ==> panel.row.value.status == Blank)
      requires agent.Valid() && agent.processed == 0 && agent.applications == {} && agent.heard == {} && agent.inflight == {} && agent.pending == None
      ensures Valid() && this.panel == panel && this.agent == agent
    {
      this.panel, this.agent := panel, agent;
      messages, reports, answered := {}, {}, {};
    }

    /** A message carries the settings of its revision. */
    ghost predicate Genuine(m: Message)
      reads panel
    {
      m.revision > 0 && !panel.wrapped ==> m.revision in panel.issued && m.params == All(panel.issued[m.revision])
    }

    /** The main claim: the panel holds a revision as applied only when the agent applied that revision, with those
        settings, or has reported settings, its own at the time, that read the same but for the reset day. */
    ghost predicate AppliedIsEarned()
      reads this, panel, agent
    {
      panel.row.Some? && panel.row.value.status == Applied ==>
        || Confirmed(agent.applications, panel.row.value.revision, panel.Runtime(), panel.wrapped)
        || Resembled(reports, panel.Runtime())
    }

    /** No result is lost: what the agent no longer holds, the panel has had. */
    ghost predicate ResultsAreHeard()
      reads this, agent
    {
      forall r :: r in agent.heard ==> exists report :: report in answered && report.result == Some(r)
    }

    ghost predicate Faithful()
      reads this, panel, agent
    {
      && (forall m :: m in messages ==> Genuine(m))
      && (!panel.wrapped ==> agent.processed == 0 || agent.processed in panel.issued)
      && (!panel.wrapped ==> forall a :: a in agent.applications ==> a.0 in panel.issued && panel.issued[a.0] == a.1)
      && (forall report :: report in reports ==>
            report.settings in agent.ranWith && (report.result.Some? ==> agent.Earned(report.result.value)))
      && answered <= reports
    }

    ghost predicate Valid()
      reads this, panel, agent
    {
      panel.Valid() && agent.Valid() && Faithful() && AppliedIsEarned() && ResultsAreHeard()
    }

    method AdminSaves(profile: Profile, event: nat, online: bool)
      requires Valid()
      modifies this, panel
      ensures Valid()
      ensures Normalize(profile).Some? ==> panel.row.Some? && panel.Runtime() == RuntimeOf(Normalize(profile).value)
      ensures Normalize(profile).Some? && !old(panel.row.Some? && panel.Runtime() == RuntimeOf(Normalize(profile).value)) ==>
                && panel.row.value.revision == Next(if old(panel.row).Some? then old(panel.row).value.revision else 0)
                && panel.row.value.status == (if online then Sent else Saved)
                && Message(panel.row.value.revision, All(panel.Runtime()), event) in messages
      ensures Normalize(profile).None? ==> panel.row == old(panel.row) && messages == old(messages)
    {
      hide Normalize, RuntimeOf, CleanFilters, All, WithDay, Confirmed, Resembled, Agent.Valid, Agent.Earned;
      var r := panel.Save(profile);
      if r.Stored? && r.runtimeChanged {
        messages := messages + {Message(r.revision, All(RuntimeOf(panel.row.value.profile)), event)};
        if online {
          var marked := panel.MarkSent(r.revision);
        }
      }
    }

    method QueuePushes(m: Message)
      requires Valid()
      modifies panel
      ensures Valid()
      ensures panel.row == if Awaits(old(panel.row), m.revision) then Some(old(panel.row).value.(status := Sent, error := "")) else old(panel.row)
    {
      var marked := panel.MarkSent(m.revision);
    }

    method AgentReceives(m: Message, spoolWorks: bool, networkWorks: bool)
      requires Valid() && m in messages
      modifies agent
      ensures Valid() && agent.processed >= old(agent.processed) && agent.applied >= old(agent.applied)
      ensures m.revision > old(agent.processed) ==> agent.processed == m.revision
      ensures m.revision > old(agent.processed) && Requested(m.params, old(agent.settings)).Some? && spoolWorks && networkWorks ==>
                && Some(agent.settings) == Requested(m.params, old(agent.settings))
                && agent.pending.Some? && agent.pending.value.revision == m.revision && agent.pending.value.status == Applied
                && agent.pending.value.hermes == Some(agent.settings.switches.enableHermesAI)
    {
      hide Requested, All, CleanFilters, RuntimeOf, Normalize, Resembles, WithDay;
      if m.revision > 0 && !panel.wrapped {
        AppliedInFull(panel.issued[m.revision], agent.settings);
      }
      var handled := agent.Process(m, spoolWorks, networkWorks);
    }

    method AgentUploads()
      requires Valid()
      modifies this, agent
      ensures Valid() && agent.processed == old(agent.processed) && agent.applied == old(agent.applied)
      ensures reports == old(reports) + {Report(agent.settings, agent.pending)}
      ensures agent.settings == old(agent.settings) && agent.pending == old(agent.pending)
    {
      var report := agent.Upload();
      reports := reports + {report};
    }

    /** Adoption of what a report states. */
    method PanelAdopts(report: Report, installation: string) returns (r: Adoption)
      requires Valid() && report in reports
      modifies panel
      ensures Valid()
      ensures old(panel.row).Some? && old(panel.row).value.revision > 0 ==>
                && panel.row.Some? && panel.row.value.revision == old(panel.row).value.revision
                && panel.row.value.profile == old(panel.row).value.profile && panel.resetDay == old(panel.resetDay)
      ensures r == Invalid <==> FromRuntime(installation, All(report.settings)).None? || Or(old(panel.resetDay), 0) > 31
    {
      hide FromRuntime, Normalize, RuntimeOf, CleanFilters, All, WithDay, Stated, Matches, Resembles;
      var settings := report.settings;
      ghost var row, resetDay := panel.row, panel.resetDay;
      r := panel.Adopt(installation, All(settings));
      if r == Created {
        ResemblesAnyway(installation, settings, panel.Runtime());
        assert Resembled(reports, panel.Runtime());
      } else if r == Managed && Matches(row.value.profile, resetDay, installation, All(settings)) {
        MatchResembles(row.value.profile, resetDay, installation, settings);
        assert Resembled(reports, panel.Runtime());
      }
      if FromRuntime(installation, All(settings)).Some? {
        FromRuntimeIsNormal(installation, All(settings));
        StatedKeepsTheRest(FromRuntime(installation, All(settings)).value, resetDay);
        if row.Some? {
          StatedKeepsTheRest(row.value.profile, resetDay);
        }
      }
    }

    method PanelCompletes(result: Result) returns (done: Option<bool>)
      requires Valid() && agent.Earned(result)
      modifies panel
      ensures Valid() && panel.resetDay == old(panel.resetDay)
      ensures panel.row.Some? ==> old(panel.row).Some? && panel.row.value.profile == old(panel.row).value.profile
      ensures done == None <==> !Acceptable(result)
      ensures Closes(old(panel.row), result) ==> panel.row.Some? && panel.row.value.status == result.status
    {
      hide Normalize, RuntimeOf, CleanFilters, All, WithDay;
      ghost var row := panel.row;
      done := panel.Complete(result);
      if done == Some(true) && result.status == Applied {
        ghost var s :| (result.revision, s) in agent.applications;
        assert panel.Runtime() == panel.issued[result.revision];
        assert !panel.wrapped ==> (result.revision, s).0 in panel.issued && panel.issued[(result.revision, s).0] == s;
        assert Confirmed(agent.applications, result.revision, panel.Runtime(), panel.wrapped);
      }
    }

    /** The panel adopts what is reported, records the result, and answers with the settings it wants. */
    method PanelReceives(report: Report, installation: string) returns (ok: bool)
      requires Valid() && report in reports
      modifies this, panel
      ensures Valid() && answered == old(answered) + if ok then {report} else {}
      ensures ok <==> Legible(report, installation, old(panel.resetDay))
      ensures ok && panel.row.Some? ==> messages == old(messages) + {Message(panel.row.value.revision, All(panel.Runtime()), 0)}
      ensures !ok ==> messages == old(messages)
      ensures ok && report.result.Some? && Closes(old(panel.row), report.result.value) ==>
                && panel.row.Some? && panel.row.value.status == report.result.value.status
                && panel.row.value.profile == old(panel.row).value.profile && panel.resetDay == old(panel.resetDay)
    {
      hide Normalize, RuntimeOf, CleanFilters, All, WithDay, FromRuntime, Requested, Effective, Confirmed, Resembled, Agent.Valid, Agent.Earned;
      var adoption := PanelAdopts(report, installation);
      if adoption == Invalid {
        return false;
      }
      if report.result.Some? {
        var done := PanelCompletes(report.result.value);
        if done == None {
          return false;
        }
      }
      var answer := panel.Current();
      if answer.Some? {
        assert Genuine(answer.value);
        messages := messages + {answer.value};
      }
      answered := answered + {report};
      ok := true;
    }

    method AgentHears(report: Report)
      requires Valid() && report in answered && report.result.Some? && report.result.value in agent.inflight
      modifies agent
      ensures Valid() && agent.processed == old(agent.processed) && agent.applied == old(agent.applied)
      ensures agent.pending == if old(agent.pending) == report.result then None else old(agent.pending)
      ensures agent.heard == old(agent.heard) + {report.result.value}
    {
      agent.ClearPending(report.result.value);
    }

    method AgentRestarts(settings: Settings)
      requires Valid()
      modifies agent
      ensures Valid() && agent.settings == settings && agent.processed == 0 && agent.pending == None
    {
      agent.Restart(settings);
    }
  }

  /** One event; one that cannot happen now does nothing.  Between restarts the agent's revisions only rise. */
  method Step(d: Delivery, e: Event)
    requires d.Valid()
    modifies d, d.panel, d.agent
    ensures d.Valid()
    ensures !e.AgentRestarts? ==> d.agent.processed >= old(d.agent.processed) && d.agent.applied >= old(d.agent.applied)
    ensures e.AgentReceives? && e.message in old(d.messages) ==> d.agent.processed >= e.message.revision
    ensures e.PanelReceives? && e.report in old(d.reports) && Legible(e.report, e.installation, old(d.panel.resetDay)) ==> e.report in d.answered
    ensures e.AgentHears? && e.report in old(d.answered) && e.report.result.Some? && e.report.result.value in old(d.agent.inflight) ==>
              e.report.result.value in d.agent.heard
    ensures e.AgentRestarts? ==> d.agent.settings == e.settings && d.agent.processed == 0
  {
    match e
    case AdminSaves(profile, event, online) => d.AdminSaves(profile, event, online);
    case QueuePushes(m) => d.QueuePushes(m);
    case AgentReceives(m, spoolWorks, networkWorks) =>
      if m in d.messages {
        d.AgentReceives(m, spoolWorks, networkWorks);
      }
    case AgentUploads => d.AgentUploads();
    case PanelReceives(report, installation) =>
      if report in d.reports {
        var ok := d.PanelReceives(report, installation);
      }
    case AgentHears(report) =>
      if report in d.answered && report.result.Some? && report.result.value in d.agent.inflight {
        d.AgentHears(report);
      }
    case AgentRestarts(settings) => d.AgentRestarts(settings);
  }

  /** Any run. */
  method Run(legacy: Option<Profile>, resetDay: Option<int>, settings: Settings, events: seq<Event>) returns (d: Delivery)
    requires legacy.Some? ==> Normal(legacy.value)
    ensures d.Valid() && d.AppliedIsEarned() && d.ResultsAreHeard()
    ensures events != [] && events[|events| - 1].AgentRestarts? ==> d.agent.settings == events[|events| - 1].settings && d.agent.processed == 0
  {
    var panel := new Profiles(legacy, resetDay);
    var agent := new Agent(settings);
    d := new Delivery(panel, agent);
    for i := 0 to |events|
      invariant d.Valid() && fresh(d) && fresh(d.panel) && fresh(d.agent)
      invariant i > 0 && events[i - 1].AgentRestarts? ==> d.agent.settings == events[i - 1].settings && d.agent.processed == 0
    {
      Step(d, events[i]);
    }
  }

  /** The agent takes a message it has not seen, applies it, reports, and the panel listens. */
  method Fulfil(d: Delivery, m: Message, runtime: Settings, installation: string)
    requires d.Valid() && m in d.messages && m.revision > d.agent.processed && m.params == All(runtime)
    requires Requested(All(runtime), d.agent.settings) == Some(runtime) && FromRuntime(installation, All(runtime)).Some?
    requires d.panel.row.Some? && d.panel.row.value.revision == m.revision && d.panel.Runtime() == runtime
    requires Or(d.panel.resetDay, 0) <= 31 && d.panel.row.value.profile.switches == runtime.switches
    modifies d, d.panel, d.agent
    ensures d.Valid() && d.agent.settings == runtime && d.panel.row.Some? && d.panel.Runtime() == runtime
    ensures d.panel.row.value.status == Applied
  {
    hide Normalize, RuntimeOf, All, FromRuntime, Requested, CleanFilters, WithDay, Delivery.Valid;
    d.AgentReceives(m, true, true);
    d.AgentUploads();
    var report := Report(d.agent.settings, d.agent.pending);
    assert Closes(d.panel.row, report.result.value);
    assert Legible(report, installation, d.panel.resetDay);
    var ok := d.PanelReceives(report, installation);
  }

  /** The panel has another revision to give, beyond all it ever gave. */
  ghost predicate RevisionsLeft(panel: Profiles)
    reads panel
  {
    !panel.wrapped && panel.LastRevision() + 1 < REVISIONS
  }

  /** Then the agent has not seen the next one, whatever was lost, repeated or reordered before. */
  lemma NextIsUnseen(d: Delivery)
    requires d.Valid() && RevisionsLeft(d.panel)
    ensures Next(d.panel.LastRevision()) > d.agent.processed
  {
    hide Normalize, RuntimeOf, CleanFilters, All, Resembles, Normal, Effective;
    if d.agent.processed > 0 {
      assert d.agent.processed in d.panel.issued;
    }
  }

  /** A delivery that nothing disturbs ends applied: whatever was delivered before, the agent then runs with the new
      settings and the panel knows. */
  method Deliver(d: Delivery, profile: Profile, event: nat, installation: string)
    requires d.Valid() && Normalize(profile).Some?
    requires !(d.panel.row.Some? && d.panel.Runtime() == RuntimeOf(Normalize(profile).value))
    requires RevisionsLeft(d.panel) || Next(d.panel.LastRevision()) > d.agent.processed
    modifies d, d.panel, d.agent
    ensures d.Valid()
    ensures d.agent.settings == RuntimeOf(Normalize(profile).value) && d.panel.row.Some? && d.panel.Runtime() == d.agent.settings
    ensures d.panel.row.value.status == Applied
  {
    hide Normalize, RuntimeOf, All, FromRuntime, Requested, CleanFilters, WithDay, Delivery.Valid;
    ghost var runtime := RuntimeOf(Normalize(profile).value);
    if RevisionsLeft(d.panel) {
      NextIsUnseen(d);
    }
    NormalizeTwice(profile);
    NormalIsClean(Normalize(profile).value);
    NormalInRange(profile);
    AppliedInFull(runtime, d.agent.settings);
    ReportIsUnderstood(installation, runtime);
    d.AdminSaves(profile, event, true);
    EffectiveParts(d.panel.row.value.profile, d.panel.resetDay);
    Fulfil(d, Message(d.panel.row.value.revision, All(d.panel.Runtime()), event), d.panel.Runtime(), installation);
  }
}
