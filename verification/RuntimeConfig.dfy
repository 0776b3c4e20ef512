/** The settings an agent runs with, the deployment profile the panel keeps for it, and the translations between
the two: backend/database/clients/deployment_profile.go and agent/server/runtime_config.go. */
module RuntimeConfig {
  import M = Masking

  datatype Option<T> = None | Some(value: T)

  datatype Filters = Filters(includeNics: string, excludeNics: string, includeMountpoints: string)

  datatype Switches = Switches(memoryIncludeCache: bool, enableGPU: bool, enableHermesAI: bool)

  /** What an agent runs with. */
  datatype Settings = Settings(monthRotate: int, interval: real, filters: Filters, switches: Switches)

  /** Settings as a message carries them: any field may be missing. */
  datatype Params = Params(monthRotate: Option<int>, interval: Option<real>,
                           includeNics: Option<string>, excludeNics: Option<string>, includeMountpoints: Option<string>,
                           memoryIncludeCache: Option<bool>, enableGPU: Option<bool>, enableHermesAI: Option<bool>)

  datatype Toggle<T> = Toggle(on: bool, value: T)

  /** `installation` stands for the options that only an installation command uses. */
  datatype Profile = Profile(installation: string, monthRotate: Toggle<int>, interval: Toggle<real>,
                             includeNics: Toggle<string>, excludeNics: Toggle<string>, includeMountpoints: Toggle<string>,
                             switches: Switches)

  const DEFAULT_INTERVAL := 3.0

  // ---------- checks ----------

  /** normalizeProfileText and validateRuntimeText. */
  function CleanText(text: string, limit: nat): Option<string>
  {
    var t := M.TrimSpace(text);
    if |t| > limit || '\0' in t || '\r' in t || '\n' in t then None else Some(t)
  }

  function NormalText(t: Toggle<string>, limit: nat): Option<Toggle<string>>
  {
    match CleanText(t.value, limit)
    case None => None
    case Some(v) => Some(Toggle(t.on, if t.on then v else ""))
  }

  predicate IntervalAllowed(i: real)
  {
    1.0 <= i <= 3600.0
  }

  /** normalizeDeploymentProfile. */
  function Normalize(p: Profile): Option<Profile>
  {
    var included := NormalText(p.includeNics, 1024);
    var excluded := NormalText(p.excludeNics, 1024);
    var mounts := NormalText(p.includeMountpoints, 2048);
    if included.None? || excluded.None? || mounts.None? then None
    else if p.interval.on && !IntervalAllowed(p.interval.value) then None
    else if p.monthRotate.on && !(1 <= p.monthRotate.value <= 31) then None
    else Some(Profile(p.installation,
                      if p.monthRotate.on then p.monthRotate else Toggle(false, 0),
                      if p.interval.on then p.interval else Toggle(false, 0.0),
                      included.value, excluded.value, mounts.value, p.switches))
  }

  ghost predicate Normal(p: Profile)
  {
    Normalize(p) == Some(p)
  }

  // ---------- translations ----------

  function TextOf(t: Toggle<string>): string
  {
    if t.on then t.value else ""
  }

  /** RuntimeConfig of a deployment profile. */
  function RuntimeOf(p: Profile): Settings
  {
    Settings(if p.monthRotate.on then p.monthRotate.value else 0,
             if p.interval.on then p.interval.value else DEFAULT_INTERVAL,
             Filters(TextOf(p.includeNics), TextOf(p.excludeNics), TextOf(p.includeMountpoints)),
             p.switches)
  }

  /** A message with every field. */
  function All(s: Settings): Params
  {
    Params(Some(s.monthRotate), Some(s.interval),
           Some(s.filters.includeNics), Some(s.filters.excludeNics), Some(s.filters.includeMountpoints),
           Some(s.switches.memoryIncludeCache), Some(s.switches.enableGPU), Some(s.switches.enableHermesAI))
  }

  function Or<T>(o: Option<T>, default: T): T
  {
    match o
    case None => default
    case Some(v) => v
  }

  function ToggleOf(o: Option<string>): Toggle<string>
  {
    match o
    case None => Toggle(false, "")
    case Some(v) => Toggle(M.TrimSpace(v) != "", v)
  }

  /** deploymentProfileFromRuntime. */
  function FromRuntime(installation: string, c: Params): Option<Profile>
  {
    if c.monthRotate.Some? && !(0 <= c.monthRotate.value <= 31) then None
    else if c.interval.Some? && !IntervalAllowed(c.interval.value) then None
    else
      Normalize(Profile(installation,
                        Toggle(Or(c.monthRotate, 0) > 0, Or(c.monthRotate, 0)),
                        Toggle(c.interval.Some? && c.interval.value != DEFAULT_INTERVAL, Or(c.interval, 0.0)),
                        ToggleOf(c.includeNics), ToggleOf(c.excludeNics), ToggleOf(c.includeMountpoints),
                        Switches(Or(c.memoryIncludeCache, false), Or(c.enableGPU, false), Or(c.enableHermesAI, false))))
  }

  /** The client's reset day, not the profile, decides about monthly rotation. */
  function WithDay(p: Profile, day: int): Profile
  {
    p.(monthRotate := if day > 0 then Toggle(true, day) else Toggle(false, 0))
  }

  // ---------- the agent's side ----------

  function Overlaid(text: Option<string>, limit: nat, current: string): Option<string>
  {
    match text
    case None => Some(current)
    case Some(t) => CleanText(t, limit)
  }

  /** The settings `c` asks of an agent that runs with `current`; None when a field is refused. */
  function Requested(c: Params, current: Settings): Option<Settings>
  {
    var included := Overlaid(c.includeNics, 1024, current.filters.includeNics);
    var excluded := Overlaid(c.excludeNics, 1024, current.filters.excludeNics);
    var mounts := Overlaid(c.includeMountpoints, 2048, current.filters.includeMountpoints);
    if c.monthRotate.Some? && !(0 <= c.monthRotate.value <= 31) then None
    else if c.interval.Some? && !IntervalAllowed(c.interval.value) then None
    else if included.None? || excluded.None? || mounts.None? then None
    else
      Some(Settings(Or(c.monthRotate, current.monthRotate), Or(c.interval, current.interval),
                    Filters(included.value, excluded.value, mounts.value),
                    Switches(Or(c.memoryIncludeCache, current.switches.memoryIncludeCache),
                             Or(c.enableGPU, current.switches.enableGPU),
                             Or(c.enableHermesAI, current.switches.enableHermesAI))))
  }

  // ---------- round trips ----------

  ghost predicate Trimmed(t: string)
  {
    t == "" || (!M.IsSpace(t[0]) && !M.IsSpace(t[|t| - 1]))
  }

  lemma {:induction false} TrimRightTrims(t: string)
    ensures M.TrimRight(t) <= t
    ensures M.TrimRight(t) != "" ==> !M.IsSpace(M.TrimRight(t)[|M.TrimRight(t)| - 1])
  {
    if t != "" && M.IsSpace(t[|t| - 1]) {
      TrimRightTrims(t[..|t| - 1]);
    }
  }

  lemma {:induction false} TrimLeftTrims(t: string)
    ensures M.TrimLeft(t) != "" ==> !M.IsSpace(M.TrimLeft(t)[0])
  {
    if t != "" && M.IsSpace(t[0]) {
      TrimLeftTrims(t[1..]);
    }
  }

  lemma TrimSpaceTrims(t: string)
    ensures Trimmed(M.TrimSpace(t)) && (Trimmed(t) ==> M.TrimSpace(t) == t)
  {
    TrimLeftTrims(t);
    TrimRightTrims(M.TrimLeft(t));
  }

  /** Cleaning a clean text changes nothing. */
  lemma CleanTwice(t: string, limit: nat)
    ensures CleanText(t, limit).Some? ==> CleanText(CleanText(t, limit).value, limit) == CleanText(t, limit)
  {
    TrimSpaceTrims(t);
    TrimSpaceTrims(M.TrimSpace(t));
  }

  lemma EmptyIsClean(limit: nat)
    ensures CleanText("", limit) == Some("")
  {
  }

  lemma NormalTextTwice(t: Toggle<string>, limit: nat)
    ensures NormalText(t, limit).Some? ==> NormalText(NormalText(t, limit).value, limit) == NormalText(t, limit)
    ensures NormalText(t, limit).Some? ==> CleanText(TextOf(NormalText(t, limit).value), limit) == Some(TextOf(NormalText(t, limit).value))
  {
    CleanTwice(t.value, limit);
    EmptyIsClean(limit);
  }

  /** A stored profile passes its check unchanged. */
  lemma NormalizeTwice(p: Profile)
    ensures Normalize(p).Some? ==> Normal(Normalize(p).value)
  {
    NormalTextTwice(p.includeNics, 1024);
    NormalTextTwice(p.excludeNics, 1024);
    NormalTextTwice(p.includeMountpoints, 2048);
  }

  /** The texts of these settings come from a normal profile. */
  ghost predicate CleanFilters(f: Filters)
  {
    && CleanText(f.includeNics, 1024) == Some(f.includeNics)
    && CleanText(f.excludeNics, 1024) == Some(f.excludeNics)
    && CleanText(f.includeMountpoints, 2048) == Some(f.includeMountpoints)
  }

  lemma NormalIsClean(p: Profile)
    requires Normal(p)
    ensures CleanFilters(RuntimeOf(p).filters)
  {
    NormalTextTwice(p.includeNics, 1024);
    NormalTextTwice(p.excludeNics, 1024);
    NormalTextTwice(p.includeMountpoints, 2048);
  }

  // ---------- field by field ----------

  /** `t` is what is left of `w` without the white space at its ends. */
  ghost predicate TrimmedFrom(t: string, w: string)
  {
    Trimmed(t) && exists left, right :: w == left + t + right && Blank(left) && Blank(right)
  }

  ghost predicate Blank(w: string)
  {
    forall c :: c in w ==> M.IsSpace(c)
  }

  lemma {:induction false} TrimLeftCuts(w: string) returns (left: string)
    ensures w == left + M.TrimLeft(w) && Blank(left)
  {
    left := "";
    if w != "" && M.IsSpace(w[0]) {
      var rest := TrimLeftCuts(w[1..]);
      left := [w[0]] + rest;
      assert w == [w[0]] + w[1..];
    }
  }

  lemma {:induction false} TrimRightCuts(w: string) returns (right: string)
    ensures w == M.TrimRight(w) + right && Blank(right)
  {
    right := "";
    if w != "" && M.IsSpace(w[|w| - 1]) {
      var rest := TrimRightCuts(w[..|w| - 1]);
      right := rest + [w[|w| - 1]];
      assert w == w[..|w| - 1] + [w[|w| - 1]];
    }
  }

  lemma TrimSpaceMeans(w: string)
    ensures TrimmedFrom(M.TrimSpace(w), w)
  {
    TrimSpaceTrims(w);
    var left := TrimLeftCuts(w);
    var right := TrimRightCuts(M.TrimLeft(w));
    assert w == left + M.TrimSpace(w) + right;
  }

  /** The text, trimmed, is short enough and has none of the three characters. */
  ghost predicate TextAllowed(text: string, limit: nat)
  {
    |M.TrimSpace(text)| <= limit && forall c :: c in M.TrimSpace(text) ==> c != '\0' && c != '\r' && c != '\n'
  }

  /** Every field the message carries is in range. */
  ghost predicate MessageAllowed(c: Params)
  {
    && (c.monthRotate.Some? ==> 0 <= c.monthRotate.value <= 31)
    && (c.interval.Some? ==> 1.0 <= c.interval.value <= 3600.0)
    && (c.includeNics.Some? ==> TextAllowed(c.includeNics.value, 1024))
    && (c.excludeNics.Some? ==> TextAllowed(c.excludeNics.value, 1024))
    && (c.includeMountpoints.Some? ==> TextAllowed(c.includeMountpoints.value, 2048))
  }

  /** Each of the eight settings is the message's field, texts trimmed, or what it was if the message leaves it out. */
  ghost predicate Overlays(c: Params, before: Settings, after: Settings)
  {
    && (if c.monthRotate.Some? then after.monthRotate == c.monthRotate.value else after.monthRotate == before.monthRotate)
    && (if c.interval.Some? then after.interval == c.interval.value else after.interval == before.interval)
    && (if c.includeNics.Some? then after.filters.includeNics == M.TrimSpace(c.includeNics.value)
        else after.filters.includeNics == before.filters.includeNics)
    && (if c.excludeNics.Some? then after.filters.excludeNics == M.TrimSpace(c.excludeNics.value)
        else after.filters.excludeNics == before.filters.excludeNics)
    && (if c.includeMountpoints.Some? then after.filters.includeMountpoints == M.TrimSpace(c.includeMountpoints.value)
        else after.filters.includeMountpoints == before.filters.includeMountpoints)
    && (if c.memoryIncludeCache.Some? then after.switches.memoryIncludeCache == c.memoryIncludeCache.value
        else after.switches.memoryIncludeCache == before.switches.memoryIncludeCache)
    && (if c.enableGPU.Some? then after.switches.enableGPU == c.enableGPU.value else after.switches.enableGPU == before.switches.enableGPU)
    && (if c.enableHermesAI.Some? then after.switches.enableHermesAI == c.enableHermesAI.value
        else after.switches.enableHermesAI == before.switches.enableHermesAI)
  }

  /** A message is accepted exactly if its fields are allowed, and then overlays the settings. */
  lemma RequestedMeans(c: Params, current: Settings)
    ensures Requested(c, current).Some? <==> MessageAllowed(c)
    ensures Requested(c, current).Some? ==> Overlays(c, current, Requested(c, current).value)
  {
  }

  /** A message with only a reset day changes only the reset day. */
  lemma OnlyADay(day: int, current: Settings)
    ensures var c := Params(Some(day), None, None, None, None, None, None, None);
            Requested(c, current) == if 0 <= day <= 31 then Some(current.(monthRotate := day)) else None
  {
  }

  /** What the panel may store as a profile. */
  ghost predicate ProfileAllowed(p: Profile)
  {
    && (p.monthRotate.on ==> 1 <= p.monthRotate.value <= 31)
    && (p.interval.on ==> 1.0 <= p.interval.value <= 3600.0)
    && TextAllowed(p.includeNics.value, 1024) && TextAllowed(p.excludeNics.value, 1024) && TextAllowed(p.includeMountpoints.value, 2048)
  }

  /** The settings of a profile: each switched-on field, texts trimmed, and the default of each other one. */
  lemma ProfileMeans(p: Profile)
    ensures Normalize(p).Some? <==> ProfileAllowed(p)
    ensures Normalize(p).Some? ==>
              var s := RuntimeOf(Normalize(p).value);
              && s.monthRotate == (if p.monthRotate.on then p.monthRotate.value else 0)
              && s.interval == (if p.interval.on then p.interval.value else 3.0)
              && s.filters.includeNics == (if p.includeNics.on then M.TrimSpace(p.includeNics.value) else "")
              && s.filters.excludeNics == (if p.excludeNics.on then M.TrimSpace(p.excludeNics.value) else "")
              && s.filters.includeMountpoints == (if p.includeMountpoints.on then M.TrimSpace(p.includeMountpoints.value) else "")
              && s.switches == p.switches && Normalize(p).value.installation == p.installation
  {
  }

  /** The settings of the profile that is read from a report: each reported field, texts trimmed, and the default of each
      one left out. */
  lemma ReportMeans(installation: string, c: Params)
    ensures FromRuntime(installation, c).Some? <==> MessageAllowed(c)
    ensures FromRuntime(installation, c).Some? ==>
              var s := RuntimeOf(FromRuntime(installation, c).value);
              && s.monthRotate == (if c.monthRotate.Some? then c.monthRotate.value else 0)
              && s.interval == (if c.interval.Some? then c.interval.value else 3.0)
              && s.filters.includeNics == (if c.includeNics.Some? then M.TrimSpace(c.includeNics.value) else "")
              && s.filters.excludeNics == (if c.excludeNics.Some? then M.TrimSpace(c.excludeNics.value) else "")
              && s.filters.includeMountpoints == (if c.includeMountpoints.Some? then M.TrimSpace(c.includeMountpoints.value) else "")
              && s.switches.memoryIncludeCache == (c.memoryIncludeCache == Some(true))
              && s.switches.enableGPU == (c.enableGPU == Some(true)) && s.switches.enableHermesAI == (c.enableHermesAI == Some(true))
    ensures FromRuntime(installation, c).Some? ==>
              var p := FromRuntime(installation, c).value;
              && p.installation == installation
              && (p.monthRotate.on <==> c.monthRotate.Some? && c.monthRotate.value > 0)
              && (p.interval.on <==> c.interval.Some? && c.interval.value != 3.0)
              && (p.includeNics.on <==> c.includeNics.Some? && M.TrimSpace(c.includeNics.value) != "")
              && (p.excludeNics.on <==> c.excludeNics.Some? && M.TrimSpace(c.excludeNics.value) != "")
              && (p.includeMountpoints.on <==> c.includeMountpoints.Some? && M.TrimSpace(c.includeMountpoints.value) != "")
              && (p.includeNics.on || p.includeNics.value == "") && (p.excludeNics.on || p.excludeNics.value == "")
              && (p.includeMountpoints.on || p.includeMountpoints.value == "")
  {
    EmptyIsClean(1024);
    EmptyIsClean(2048);
  }

  /** An agent that accepts a profile's message runs with exactly the profile's settings, whatever it ran with
      before; and it accepts exactly when the reset day and the interval are in range. */
  lemma AppliedInFull(s: Settings, current: Settings)
    requires CleanFilters(s.filters)
    ensures Requested(All(s), current).Some? <==> 0 <= s.monthRotate <= 31 && IntervalAllowed(s.interval)
    ensures Requested(All(s), current).Some? ==> Requested(All(s), current) == Some(s)
  {
    var c := All(s);
    assert Overlaid(c.includeNics, 1024, current.filters.includeNics) == Some(s.filters.includeNics);
    assert Overlaid(c.excludeNics, 1024, current.filters.excludeNics) == Some(s.filters.excludeNics);
    assert Overlaid(c.includeMountpoints, 2048, current.filters.includeMountpoints) == Some(s.filters.includeMountpoints);
  }

  lemma EchoedText(t: string, limit: nat)
    requires CleanText(t, limit) == Some(t)
    ensures NormalText(ToggleOf(Some(t)), limit).Some? && TextOf(NormalText(ToggleOf(Some(t)), limit).value) == t
  {
  }

  /** An agent that reports what it runs with is understood: the profile read from the report has these settings. */
  lemma ReportIsUnderstood(installation: string, s: Settings)
    requires CleanFilters(s.filters) && 0 <= s.monthRotate <= 31 && IntervalAllowed(s.interval)
    ensures FromRuntime(installation, All(s)).Some?
    ensures RuntimeOf(FromRuntime(installation, All(s)).value) == s
  {
    EchoedText(s.filters.includeNics, 1024);
    EchoedText(s.filters.excludeNics, 1024);
    EchoedText(s.filters.includeMountpoints, 2048);
  }
}
