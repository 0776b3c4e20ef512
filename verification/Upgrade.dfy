/** The journaled upgrade, deploy/safe_upgrade.py: upgrade, restore, recover_pending, the pre-start gate and
automatic recovery.

Every action of the coordinator first lets the rest of the host act (the panel may die, systemd may restart
it through the gate) and then asks the host's script whether the action works, raises before or after taking
effect, or finds the coordinator killed.  A method that returns Killed has been cut short there. */
module Upgrade {

  datatype Phase = NoTransaction | Prepared | Stopped | BackedUp | Starting | Committed | RollbackStarting | RolledBack | RollbackFailed

  datatype Event = PanelDies | SystemdRestarts | Act(fate: Fate)
  datatype Fate = Works | Raises | RaisesAfter | Dies

  datatype Outcome = Done | Raised | Killed

  datatype Recovery = NothingPending | StillActive | SnapshotMissing | WrongBinary | Ended(outcome: Outcome)

  /** A data tree belongs to the version that may run on it. */
  datatype DataTree = DataTree(owner: nat, whole: bool)

  /** root/komari: a plain executable, or a link through root/current. */
  datatype Komari = Plain(version: nat) | Linked

  datatype Option<T> = None | Some(value: T)

  /** What the script says of the next action; a script that has run out lets everything work. */
  function FateOf(script: seq<Event>): Fate
  {
    if script == [] then Works
    else
      match script[0]
      case Act(fate) => fate
      case _ => FateOf(script[1..])
  }

  function After(script: seq<Event>): seq<Event>
  {
    if script == [] then [] else if script[0].Act? then script[1..] else After(script[1..])
  }

  /** What runs once the events before the next action have happened. */
  function RunningAfter(script: seq<Event>, running: Option<nat>, mayStart: bool, binary: nat): Option<nat>
  {
    if script == [] then running
    else
      match script[0]
      case Act(_) => running
      case PanelDies => RunningAfter(script[1..], None, mayStart, binary)
      case SystemdRestarts => RunningAfter(script[1..], if running == None && mayStart then Some(binary) else running, mayStart, binary)
  }

  /** Whether the panel is up after the next n actions, when it may be restarted all along. */
  function UpAfter(script: seq<Event>, n: nat, up: bool): bool
    decreases |script|
  {
    if n == 0 || script == [] then up
    else
      match script[0]
      case Act(_) => UpAfter(script[1..], n - 1, up)
      case PanelDies => UpAfter(script[1..], n, false)
      case SystemdRestarts => UpAfter(script[1..], n, true)
  }

  /** The panel does not die before the next action. */
  predicate Survives(script: seq<Event>)
  {
    script == [] || script[0].Act? || (script[0] != PanelDies && Survives(script[1..]))
  }

  /** A panel that may be restarted comes back after its last death, and one that may not stays down. */
  lemma {:induction false} UpOrDown(script: seq<Event>, running: Option<nat>, binary: nat)
    ensures running == None || running == Some(binary) ==>
              RunningAfter(script, running, true, binary) == if UpAfter(script, 1, running.Some?) then Some(binary) else None
    ensures RunningAfter(script, running, true, binary).Some? <==> UpAfter(script, 1, running.Some?)
    ensures RunningAfter(script, running, false, binary).Some? <==> running.Some? && Survives(script)
  {
    if script != [] {
      match script[0]
      case Act(_) =>
      case PanelDies => UpOrDown(script[1..], None, binary);
      case SystemdRestarts => UpOrDown(script[1..], if running == None then Some(binary) else running, binary);
        UpOrDown(script[1..], running, binary);
    }
  }

  lemma {:induction false} UpStep(script: seq<Event>, n: nat, up: bool)
    requires n > 0
    ensures UpAfter(script, n, up) == UpAfter(After(script), n - 1, UpAfter(script, 1, up))
    decreases |script|
  {
    if script != [] {
      match script[0]
      case Act(_) =>
      case PanelDies => UpStep(script[1..], n, false);
      case SystemdRestarts => UpStep(script[1..], n, true);
    }
  }

  lemma TwoActions(script: seq<Event>, binary: nat)
    ensures RunningAfter(After(script), RunningAfter(script, Some(binary), true, binary), true, binary)
         == if UpAfter(script, 2, true) then Some(binary) else None
  {
    hide UpAfter, RunningAfter, After;
    var up := RunningAfter(script, Some(binary), true, binary);
    UpOrDown(script, Some(binary), binary);
    UpOrDown(After(script), up, binary);
    UpStep(script, 2, true);
  }

  /** What runs at the end of a transaction that starts `version` after n actions and then takes two more. */
  function Runs(script: seq<Event>, n: nat, version: nat): Option<nat>
  {
    if UpAfter(AfterN(script, n), 2, true) then Some(version) else None
  }

  lemma RunsNow(script: seq<Event>, version: nat)
    ensures Runs(script, 0, version) == RunningAfter(After(script), RunningAfter(script, Some(version), true, version), true, version)
  {
    TwoActions(script, version);
  }

  lemma RunsLater(script: seq<Event>, n: nat, version: nat)
    requires n > 0
    ensures Runs(script, n, version) == Runs(After(script), n - 1, version)
  {
  }

  /** The action takes effect. */
  predicate Took(fate: Fate)
  {
    fate == Works || fate == RaisesAfter
  }

  function ResultOf(fate: Fate): Outcome
  {
    match fate
    case Works => Done
    case Dies => Killed
    case Raises => Raised
    case RaisesAfter => Raised
  }

  /** What the script says after the next n actions. */
  function AfterN(script: seq<Event>, n: nat): seq<Event>
    decreases n
  {
    if n == 0 then script else AfterN(After(script), n - 1)
  }

  /** The next n actions work, and the one after them raises when it has taken effect. */
  predicate RaisesLate(script: seq<Event>, n: nat)
    decreases n
  {
    if n == 0 then FateOf(script) == RaisesAfter else FateOf(script) == Works && RaisesLate(After(script), n - 1)
  }

  /** Of the n actions up to the record rollback_starting one is killed, or one raises (the last of them without
      effect) and the record rollback_failed is not written either. */
  predicate CutShort(script: seq<Event>, n: nat)
    decreases n
  {
    n > 0 &&
    match FateOf(script)
    case Works => CutShort(After(script), n - 1)
    case Dies => true
    case Raises => !Took(FateOf(After(script)))
    case RaisesAfter => n != 1 && !Took(FateOf(After(script)))
  }

  /** Restoring moves the data away and then gets no record on disk. */
  predicate RestoreExposes(script: seq<Event>)
  {
    FateOf(script) == Works &&
    match FateOf(After(script))
    case Works => CutShort(After(After(script)), 4)
    case RaisesAfter => true
    case _ => false
  }

  lemma OneAction(script: seq<Event>, n: nat)
    requires n > 0
    ensures RaisesLate(script, n) <==> FateOf(script) == Works && RaisesLate(After(script), n - 1)
    ensures AfterN(script, n + 1) == AfterN(After(script), n)
  {
  }

  lemma LastAction(script: seq<Event>)
    ensures RaisesLate(script, 0) <==> FateOf(script) == RaisesAfter
    ensures AfterN(script, 1) == After(script)
    ensures CutShort(script, 1) <==> FateOf(script) == Dies || (FateOf(script) == Raises && !Took(FateOf(After(script))))
  {
    assert AfterN(After(script), 0) == After(script);
    assert !CutShort(After(script), 0);
  }

  lemma AnotherAction(script: seq<Event>, n: nat)
    requires n > 1
    ensures CutShort(script, n) <==>
              match FateOf(script)
              case Works => CutShort(After(script), n - 1)
              case Dies => true
              case _ => !Took(FateOf(After(script)))
  {
  }

  /** A script that has run out. */
  lemma NothingScripted()
    ensures FateOf([]) == Works && After([]) == []
    ensures forall running: Option<nat>, mayStart: bool, binary: nat :: RunningAfter([], running, mayStart, binary) == running
  {
  }

  lemma RestartScripted()
    ensures forall binary: nat :: RunningAfter([SystemdRestarts], None, true, binary) == Some(binary)
  {
    assert [SystemdRestarts][1..] == [];
  }

  /** The upgrades that leave a closed journal behind that does not tell the truth: the record `committed` reaches the
      disk and then raises, and the rollback that follows is cut short with the data moved away. */
  predicate Exposing(script: seq<Event>)
  {
    RaisesLate(script, 11) && RestoreExposes(AfterN(script, 12))
  }

  class Host {
    var script: seq<Event>
    // files
    var data: DataTree
    var komari: Komari
    var current: nat
    var snapshot: bool
    // the journal
    var phase: Phase
    var oldVersion: nat
    var target: nat
    /** The coordinator named in the journal is a live process. */
    var alive: bool
    // the service
    var running: Option<nat>
    var stopped: bool
    /** The version that answered the health check since the last start. */
    var healthy: Option<nat>
    /** The running command was killed: it must not act any more. */
    ghost var killed: bool
    /** How many actions did not work. */
    ghost var faults: nat

    constructor (version: nat, komari: Komari, script: seq<Event>)
      requires komari.Plain? ==> komari.version == version
      ensures Safe() && Closed() && Ready() && !alive && !killed
      ensures Binary() == version && this.script == script
    {
      this.script, this.komari := script, komari;
      data, current, snapshot := DataTree(version, true), version, false;
      phase, oldVersion, target, alive := NoTransaction, version, version, false;
      running, stopped, healthy := None, false, None;
      killed, faults := false, 0;
    }

    /** The version root/komari starts. */
    function Binary(): nat
      reads `komari, `current
    {
      match komari
      case Plain(v) => v
      case Linked => current
    }

    /** Binary and data belong together. */
    predicate Ready()
      reads `data, `komari, `current
    {
      data.whole && data.owner == Binary()
    }

    predicate Closed()
      reads `phase
    {
      phase == NoTransaction || phase == Committed || phase == RolledBack
    }

    /** gate: the pre-start check lets the panel start. */
    predicate Gate()
      reads `phase, `alive
    {
      Closed() || ((phase == Starting || phase == RollbackStarting) && alive)
    }

    /** systemd restarts the panel only when nobody stopped it, and only through the gate. */
    predicate MayStart()
      reads `phase, `alive, `stopped
    {
      !stopped && Gate()
    }

    /** Whatever runs, runs on data of its own, and whatever may start would. */
    ghost predicate Sound()
      reads this
    {
      && (running.Some? ==> data.whole && data.owner == running.value)
      && (MayStart() ==> Ready())
    }

    /** Before the snapshot is complete nothing has been touched. */
    predicate Untouched()
      reads `data, `komari, `current, `oldVersion
    {
      Binary() == oldVersion && data == DataTree(oldVersion, true)
    }

    /** The candidate is installed on its data. */
    predicate Switched()
      reads `data, `komari, `current, `target
    {
      Binary() == target && data == DataTree(target, true)
    }

    /** A closed journal names a version that is installed on its own data and that was found healthy. */
    predicate Truthful()
      reads `phase, `data, `komari, `current, `oldVersion, `target, `healthy
    {
      && (phase == NoTransaction ==> Ready())
      && (phase == Committed ==> Switched() && healthy == Some(target))
      && (phase == RolledBack ==> Untouched() && healthy == Some(oldVersion))
    }

    /** What an open journal says of the host. */
    ghost predicate Open()
      reads `phase, `snapshot, `data, `komari, `current, `oldVersion, `target
    {
      && (!Closed() && !snapshot ==> Untouched())
      && (phase == BackedUp || phase == Starting ==> snapshot)
      && (phase != NoTransaction ==> oldVersion != target)
    }

    /** Nothing runs, and the service was stopped on purpose. */
    predicate Parked()
      reads `running, `stopped
    {
      running == None && stopped
    }

    /** Holds between any two actions: what runs runs on its own data, and if the journal does not tell the truth, at
        least the service is parked. */
    ghost predicate Held()
      reads this
    {
      Sound() && Open() && (!Truthful() ==> Parked() && phase != NoTransaction)
    }

    ghost predicate Safe()
      reads this
    {
      Held() && Truthful()
    }

    /** Nothing runs and nothing will be started. */
    predicate Quiet()
      reads `running, `phase, `alive, `stopped
    {
      running == None && !MayStart()
    }

    /** One action was tried. */
    twostate predicate Tallied(r: Outcome)
      reads this
    {
      killed == (r == Killed) && faults == old(faults) + if r == Done then 0 else 1
    }

    // ---------- the host acts ----------

    /** What happens from now on. */
    method Meet(script: seq<Event>)
      modifies `script
      ensures this.script == script
      ensures Held() == old(Held()) && Truthful() == old(Truthful()) && MayStart() == old(MayStart())
    {
      this.script := script;
    }

    /** Events up to the next action. */
    method HostActs()
      modifies `script, `running
      ensures old(Sound()) ==> Sound()
      ensures old(Quiet()) ==> Quiet()
      ensures !stopped && (phase == NoTransaction || phase == Committed || phase == RolledBack || ((phase == Starting || phase == RollbackStarting) && alive)) ==>
                (running.Some? <==> UpAfter(old(script), 1, old(running).Some?))
      ensures stopped || phase == Prepared || phase == Stopped || phase == BackedUp || phase == RollbackFailed || (!alive && (phase == Starting || phase == RollbackStarting)) ==>
                (running.Some? <==> old(running).Some? && Survives(old(script)))
      ensures running == RunningAfter(old(script), old(running), MayStart(), Binary())
      ensures (script == [] || script[0].Act?) && FateOf(script) == FateOf(old(script)) && After(script) == After(old(script))
    {
      UpOrDown(script, running, Binary());
      while script != [] && !script[0].Act?
        invariant (old(Sound()) ==> Sound()) && (old(Quiet()) ==> Quiet())
        invariant RunningAfter(script, running, MayStart(), Binary()) == RunningAfter(old(script), old(running), MayStart(), Binary())
        invariant FateOf(script) == FateOf(old(script)) && After(script) == After(old(script))
        decreases |script|
      {
        if script[0].PanelDies? {
          running := None;
        } else if running == None && MayStart() {
          running := Some(Binary());
        }
        script := script[1..];
      }
    }

    /** The host acts, then the script decides about the coordinator's action. */
    method Turn() returns (fate: Fate)
      requires Sound() && !killed
      modifies `script, `running, `killed, `faults
      ensures fate == FateOf(old(script)) && script == After(old(script)) && Tallied(ResultOf(fate))
      ensures !stopped && (phase == NoTransaction || phase == Committed || phase == RolledBack || ((phase == Starting || phase == RollbackStarting) && alive)) ==>
                (running.Some? <==> UpAfter(old(script), 1, old(running).Some?))
      ensures stopped || phase == Prepared || phase == Stopped || phase == BackedUp || phase == RollbackFailed || (!alive && (phase == Starting || phase == RollbackStarting)) ==>
                (running.Some? <==> old(running).Some? && Survives(old(script)))
      ensures running == RunningAfter(old(script), old(running), MayStart(), Binary())
      ensures Sound() && (old(Quiet()) ==> Quiet())
    {
      HostActs();
      fate := Works;
      if script != [] {
        fate, script := script[0].fate, script[1..];
      }
      killed := fate == Dies;
      faults := faults + if fate == Works then 0 else 1;
    }

    /** The command is gone, killed or at its end; the next one is another process. */
    method CoordinatorEnds()
      requires Held()
      modifies `alive, `killed
      ensures Held() && !alive && !killed && Truthful() == old(Truthful())
    {
      alive, killed := false, false;
    }

    /** The host boots: no process survives, and services are started unless the gate refuses.  Afterwards the host is
        safe exactly if the journal told the truth before; if not, the gate lets the panel start all the same. */
    method Boot()
      requires Held()
      modifies `alive, `running, `stopped, `script
      ensures !alive && !stopped && (Safe() <==> old(Truthful())) && Truthful() == old(Truthful())
      ensures old(!Truthful()) ==> MayStart()
      ensures running == RunningAfter(old(script), None, MayStart(), Binary())
    {
      alive, running, stopped := false, None, false;
      HostActs();
    }

    // ---------- actions ----------

    /** The host is as the record `p` would say. */
    ghost predicate Fits(p: Phase)
      reads `phase, `data, `komari, `current, `oldVersion, `target, `healthy, `snapshot, `stopped
    {
      && p != NoTransaction && p != Prepared && (snapshot || Untouched() || p == Committed)
      && (p == Committed ==> Switched() && healthy == Some(target))
      && (p == RolledBack ==> Untouched() && healthy == Some(oldVersion))
      && (p == BackedUp || p == Starting ==> snapshot)
      && (p == Starting || p == RollbackStarting ==> Ready() || stopped)
    }

    /** The rename takes effect. */
    method Write(p: Phase, identify: bool)
      requires Held() && phase != NoTransaction && Fits(p)
      modifies `phase, `alive
      ensures Safe() && phase == p && alive == (old(alive) || identify)
      ensures old(Quiet()) && stopped ==> Quiet()
    {
      phase, alive := p, alive || identify;
    }

    /** save: the journal is replaced by an atomic rename; with `identify` it names the running process. */
    method Save(p: Phase, identify: bool) returns (r: Outcome)
      requires Held() && !killed && phase != NoTransaction && Fits(p)
      modifies `script, `running, `killed, `faults, `phase, `alive
      ensures r == ResultOf(FateOf(old(script))) && script == After(old(script)) && Tallied(r)
      ensures Held() && (old(Quiet()) && stopped ==> Quiet())
      ensures if Took(FateOf(old(script))) then Truthful() else Truthful() == old(Truthful())
      ensures running == RunningAfter(old(script), old(running), old(MayStart()), Binary())
      ensures if Took(FateOf(old(script))) then phase == p && alive == (old(alive) || identify) else phase == old(phase) && alive == old(alive)
    {
      hide FateOf, After, RunningAfter, UpAfter, Survives, Untouched, Switched, Ready, Binary;
      var fate := Turn();
      if Took(fate) {
        Write(p, identify);
      }
      r := ResultOf(fate);
    }

    /** The first record of a transaction; its identifier is new, so it has no snapshot yet. */
    method OpenJournal(version: nat)
      requires Held() && Closed() && Ready() && version != Binary()
      modifies `phase, `alive, `oldVersion, `target, `snapshot
      ensures Safe() && phase == Prepared && alive && oldVersion == Binary() && target == version && !snapshot
    {
      oldVersion, target, snapshot, phase, alive := Binary(), version, false, Prepared, true;
    }

    /** Writing it is an action like any other. */
    method Begin(version: nat) returns (r: Outcome)
      requires Held() && !killed && Closed() && Ready() && version != Binary()
      modifies `script, `running, `killed, `faults, `phase, `alive, `oldVersion, `target, `snapshot
      ensures r == ResultOf(FateOf(old(script))) && script == After(old(script)) && Tallied(r)
      ensures Held() && (Took(FateOf(old(script))) ==> Safe()) && (!Took(FateOf(old(script))) ==> Truthful() == old(Truthful()))
      ensures if Took(FateOf(old(script))) then phase == Prepared && alive && oldVersion == Binary() && target == version && !snapshot
              else phase == old(phase) && target == old(target) && oldVersion == old(oldVersion)
    {
      hide FateOf, After, RunningAfter;
      var fate := Turn();
      if Took(fate) {
        OpenJournal(version);
      }
      r := ResultOf(fate);
    }

    /** systemctl stop. */
    method Stop() returns (r: Outcome)
      requires Held() && !killed
      modifies `script, `running, `killed, `faults, `stopped
      ensures r == ResultOf(FateOf(old(script))) && script == After(old(script)) && Tallied(r)
      ensures Held() && Truthful() == old(Truthful())
      ensures (Took(FateOf(old(script))) ==> Parked() && Quiet()) && (!Took(FateOf(old(script))) ==> stopped == old(stopped))
    {
      hide FateOf, After, RunningAfter;
      var fate := Turn();
      if Took(fate) {
        stopped, running := true, None;
      }
      r := ResultOf(fate);
    }

    /** systemctl start, which fails if the gate refuses; it lets the panel through because the coordinator lives. */
    method Start() returns (r: Outcome)
      requires Safe() && !killed && Ready() && alive && (phase == Starting || phase == RollbackStarting)
      modifies `script, `running, `killed, `faults, `stopped, `healthy
      ensures r == ResultOf(FateOf(old(script))) && script == After(old(script)) && Tallied(r)
      ensures Safe() && healthy == None
      ensures if Took(FateOf(old(script))) then !stopped && running == Some(Binary()) else stopped == old(stopped)
    {
      hide FateOf, After, RunningAfter;
      var fate := Turn();
      healthy := None;
      if Took(fate) {
        if !Gate() {
          return Raised;
        }
        stopped := false;
        if running == None {
          running := Some(Binary());
        }
      }
      r := ResultOf(fate);
    }

    /** health: the started version answers, or the check raises. */
    method CheckHealth() returns (r: Outcome)
      requires Safe() && !killed && !Closed()
      modifies `script, `running, `killed, `faults, `healthy
      ensures r == ResultOf(FateOf(old(script))) && script == After(old(script)) && Tallied(r)
      ensures Safe() && healthy == if r == Done then Some(Binary()) else old(healthy)
      ensures running == RunningAfter(old(script), old(running), MayStart(), Binary())
    {
      hide FateOf, After, RunningAfter;
      var fate := Turn();
      if fate == Works {
        healthy := Some(Binary());
      }
      r := ResultOf(fate);
    }

    /** The snapshot's metadata is written last, once everything else in it is on disk and checked. */
    method CompleteSnapshot() returns (r: Outcome)
      requires Safe() && !killed && phase == Stopped
      modifies `script, `running, `killed, `faults, `snapshot
      ensures r == ResultOf(FateOf(old(script))) && script == After(old(script)) && Tallied(r)
      ensures Safe() && (old(Quiet()) ==> Quiet()) && snapshot == (old(snapshot) || Took(FateOf(old(script))))
    {
      hide FateOf, After, RunningAfter;
      var fate := Turn();
      if Took(fate) {
        snapshot := true;
      }
      r := ResultOf(fate);
    }

    /** The theme of the candidate replaces the old one; from here on the data is the candidate's.  Cut short, the
        tree may be torn. */
    method ApplyTheme() returns (r: Outcome)
      requires Safe() && !killed && Parked() && !Closed() && snapshot
      modifies `script, `running, `killed, `faults, `data
      ensures r == ResultOf(FateOf(old(script))) && script == After(old(script)) && Tallied(r)
      ensures Safe() && Parked() && data == DataTree(target, r == Done)
    {
      hide FateOf, After, RunningAfter;
      var fate := Turn();
      data := DataTree(target, fate == Works);
      r := ResultOf(fate);
    }

    /** Move the data directory out of the way.  This is safe exactly when the journal is open: a closed one lets the
        gate start the panel without its data. */
    method Displace() returns (r: Outcome)
      requires Held() && !killed && Parked() && snapshot && phase != NoTransaction
      modifies `script, `running, `killed, `faults, `data
      ensures r == ResultOf(FateOf(old(script))) && script == After(old(script)) && Tallied(r)
      ensures Held() && Parked() && data == if Took(FateOf(old(script))) then old(data).(whole := false) else old(data)
      ensures if Took(FateOf(old(script))) then Safe() <==> !Closed() else Truthful() == old(Truthful())
    {
      hide FateOf, After, RunningAfter;
      var fate := Turn();
      if Took(fate) {
        data := data.(whole := false);
      }
      r := ResultOf(fate);
    }

    /** Copy the snapshot's data back, to where no usable data is, and check it. */
    method CopyBack() returns (r: Outcome)
      requires Held() && !killed && Parked() && snapshot && phase != NoTransaction && !data.whole
      modifies `script, `running, `killed, `faults, `data
      ensures r == ResultOf(FateOf(old(script))) && script == After(old(script)) && Tallied(r)
      ensures Held() && Parked() && data == DataTree(oldVersion, r == Done)
    {
      hide FateOf, After, RunningAfter;
      var fate := Turn();
      data := DataTree(oldVersion, fate == Works);
      r := ResultOf(fate);
    }

    /** swap_link on root/current. */
    method SwapCurrent(version: nat) returns (r: Outcome)
      requires Held() && !killed && Parked() && snapshot && phase != NoTransaction
      modifies `script, `running, `killed, `faults, `current
      ensures r == ResultOf(FateOf(old(script))) && script == After(old(script)) && Tallied(r)
      ensures Held() && Parked() && current == if Took(FateOf(old(script))) then version else old(current)
    {
      hide FateOf, After, RunningAfter;
      var fate := Turn();
      if Took(fate) {
        current := version;
      }
      r := ResultOf(fate);
    }

    /** swap_link on root/komari. */
    method SwapKomari() returns (r: Outcome)
      requires Held() && !killed && Parked() && snapshot && phase != NoTransaction
      modifies `script, `running, `killed, `faults, `komari
      ensures r == ResultOf(FateOf(old(script))) && script == After(old(script)) && Tallied(r)
      ensures Held() && Parked() && komari == if Took(FateOf(old(script))) then Linked else old(komari)
    {
      hide FateOf, After, RunningAfter;
      var fate := Turn();
      if Took(fate) {
        komari := Linked;
      }
      r := ResultOf(fate);
    }

    // ---------- going back ----------

    /** The old version's data under the record committed: the journal does not tell the truth. */
    lemma OldDataIsNotTheCandidates()
      requires Open() && phase == Committed && data.owner == oldVersion
      ensures !Truthful()
    {
    }

    /** The data has at most been moved away, and no record was written. */
    twostate predicate OnlyMoved()
      reads this
    {
      phase == old(phase) && Binary() == old(Binary()) && (data == old(data) || data == old(data).(whole := false))
    }

    /** restore: put the snapshot's data and the old executable back and start them.  One fault after the data was
        moved is recorded as rollback_failed.  Under an open journal the host stays safe; under the record committed
        it does exactly unless the script cuts the rollback short. */
    method Restore() returns (r: Outcome)
      requires Safe() && !killed && snapshot && (!Closed() || phase == Committed)
      modifies this
      ensures Held() && oldVersion == old(oldVersion) && (killed <==> r == Killed)
      ensures Safe() <==> !(old(phase) == Committed && RestoreExposes(old(script)))
      ensures (r == Done <==> faults == old(faults)) && faults >= old(faults)
      ensures r == Done ==> running == Runs(old(script), 7, oldVersion)
      ensures (r == Done ==> phase == RolledBack && Safe()) && (!Safe() ==> phase == Committed)
      ensures r == Raised && faults == old(faults) + 1 ==> phase == RollbackFailed || OnlyMoved()
      ensures old(script) == [] ==> r == Done && script == [] && running == Some(Binary())
    {
      hide FateOf, After, RunningAfter, CutShort, Sound, Open, Runs, MayStart, Gate, Ready, Untouched, Switched, Binary, Truthful, AfterN, RaisesLate;
      NothingScripted();
      RunsLater(script, 7, oldVersion);
      r := Stop();
      if r != Done {
        return;
      }
      RunsLater(script, 6, oldVersion);
      r := Displace();
      if r != Done {
        return;
      }
      r := Reinstall();
      if r == Raised {
        var saved := Save(RollbackFailed, false);
        if saved == Killed {
          return Killed;
        }
      }
    }

    /** The guarded part of restore. */
    method Reinstall() returns (r: Outcome)
      requires Held() && !killed && Parked() && snapshot && !data.whole && (!Closed() || phase == Committed)
      modifies this
      ensures Held() && Tallied(r) && (phase != Committed ==> Truthful()) && (phase == Committed ==> !Truthful() && old(phase) == Committed)
      ensures r == Done ==> phase == RolledBack && running == Runs(old(script), 5, oldVersion)
      ensures phase != NoTransaction && snapshot && oldVersion == old(oldVersion)
      ensures old(phase) == Committed ==>
                (CutShort(old(script), 4) <==> phase == Committed && (r == Killed || !Took(FateOf(script))))
      ensures old(script) == [] ==> r == Done && script == [] && running == Some(Binary())
    {
      hide FateOf, After, AfterN, RaisesLate, CutShort, RunningAfter, Sound, Switched, ResultOf, Took, Runs;
      r := PutBack();
      if r == Done {
        r := Relaunch();
      }
      if phase == Committed {
        OldDataIsNotTheCandidates();
      }
    }

    /** Copy the data and swap both links back. */
    method PutBack() returns (r: Outcome)
      requires Held() && !killed && Parked() && snapshot && !data.whole && (!Closed() || phase == Committed)
      modifies `script, `running, `killed, `faults, `data, `current, `komari
      ensures Held() && Tallied(r) && Parked() && data == DataTree(oldVersion, data.whole)
      ensures r == Done ==> Untouched() && oldVersion == old(oldVersion) && Runs(old(script), 5, oldVersion) == Runs(script, 2, oldVersion)
      ensures CutShort(old(script), 4) <==> if r == Done then CutShort(script, 1) else r == Killed || !Took(FateOf(script))
      ensures old(script) == [] ==> r == Done && script == []
    {
      hide FateOf, After, AfterN, RaisesLate, CutShort, RunningAfter, Held, Sound, Open, Truthful, Switched, Runs;
      NothingScripted();
      RunsLater(script, 5, oldVersion);
      AnotherAction(script, 4);
      r := CopyBack();
      if r != Done {
        return;
      }
      RunsLater(script, 4, oldVersion);
      AnotherAction(script, 3);
      r := SwapCurrent(oldVersion);
      if r != Done {
        return;
      }
      RunsLater(script, 3, oldVersion);
      AnotherAction(script, 2);
      r := SwapKomari();
    }

    /** Record that the old version is about to start, and start it. */
    method Relaunch() returns (r: Outcome)
      requires Held() && !killed && Parked() && snapshot && Untouched() && (!Closed() || phase == Committed)
      modifies this
      ensures Held() && Tallied(r) && (phase != Committed ==> Truthful()) && (phase == Committed ==> old(phase) == Committed)
      ensures Untouched() && snapshot && phase != NoTransaction && oldVersion == old(oldVersion) && target == old(target)
      ensures r == Done ==> phase == RolledBack && running == Runs(old(script), 2, oldVersion)
      ensures old(phase) == Committed ==>
                (CutShort(old(script), 1) <==> phase == Committed && (r == Killed || !Took(FateOf(script))))
      ensures old(script) == [] ==> r == Done && script == [] && running == Some(Binary())
    {
      hide FateOf, After, AfterN, RaisesLate, CutShort, RunningAfter, Held, Sound, Open, Quiet, Switched, Runs;
      NothingScripted();
      RunsLater(script, 2, oldVersion);
      LastAction(script);
      r := Save(RollbackStarting, true);
      if r != Done {
        return;
      }
      r := StartAndConfirm();
    }

    /** Start the old version, wait until it is healthy and say so. */
    method StartAndConfirm() returns (r: Outcome)
      requires Safe() && !killed && phase == RollbackStarting && alive && Untouched()
      modifies this
      ensures Safe() && Tallied(r) && snapshot == old(snapshot) && oldVersion == old(oldVersion) && target == old(target) && Untouched()
      ensures phase == RollbackStarting || phase == RolledBack
      ensures r == Done ==> phase == RolledBack && running == Runs(old(script), 1, oldVersion)
      ensures old(script) == [] ==> r == Done && script == [] && running == Some(Binary())
    {
      hide FateOf, After, AfterN, RaisesLate, CutShort, RunningAfter, RestoreExposes, Exposing, Held, Sound, Open;
      NothingScripted();
      RunsLater(script, 1, oldVersion);
      RunsNow(After(script), oldVersion);
      hide Runs;
      r := Start();
      if r != Done {
        return;
      }
      r := CheckHealth();
      if r != Done {
        return;
      }
      r := Save(RolledBack, false);
    }

    /** Without a snapshot nothing was touched: withdraw the transaction and start the old version. */
    method StartOld() returns (r: Outcome)
      requires Safe() && !killed && !Closed() && !snapshot
      modifies this
      ensures Safe() && oldVersion == old(oldVersion) && (killed <==> r == Killed)
      ensures (r == Done <==> faults == old(faults)) && faults >= old(faults)
      ensures r == Done ==> phase == RolledBack && running == Runs(old(script), 2, oldVersion)
      ensures r == Raised && faults == old(faults) + 1 ==> phase == RollbackFailed || phase == old(phase) || (phase == RollbackStarting && healthy == old(healthy))
      ensures old(script) == [] ==> r == Done && script == [] && running == Some(Binary())
    {
      hide FateOf, After, AfterN, RaisesLate, CutShort, RunningAfter, Runs;
      NothingScripted();
      RunsLater(script, 2, oldVersion);
      r := Save(RollbackStarting, true);
      if r != Done {
        return;
      }
      r := StartAndConfirm();
      if r == Raised {
        var saved := Save(RollbackFailed, false);
        if saved == Killed {
          return Killed;
        }
      }
    }

    // ---------- the commands ----------

    /** upgrade.  Undisturbed it commits.  After a single fault it has not begun, or its first record raised after
        it was written, or the old version is back.  The journal it leaves tells the truth exactly unless the script
        exposes it. */
    method UpgradeTo(version: nat) returns (r: Outcome)
      requires Held() && !killed
      modifies this
      ensures Held() && (killed <==> r == Killed)
      ensures old((phase != NoTransaction && phase != Committed && phase != RolledBack) || version == Binary() || !data.whole || data.owner != Binary()) ==>
                r == Raised && unchanged(this)
      ensures old(Safe() && Accepts(version)) ==> (Safe() <==> !Exposing(old(script))) && (!Safe() ==> phase == Committed)
      ensures old(Accepts(version)) ==> (r == Done <==> faults == old(faults))
      ensures r == Done ==> Safe() && phase == Committed && snapshot && target == version && running == Runs(old(script), 10, version)
      ensures r == Raised && faults == old(faults) + 1 ==>
                || (phase == RolledBack && Safe())
                || (phase == Prepared && !snapshot)
                || (phase == old(phase) && oldVersion == old(oldVersion) && target == old(target))
      ensures old(script == [] && (phase == NoTransaction || phase == Committed || phase == RolledBack)
                  && data.whole && data.owner == Binary() && version != Binary()) ==>
                r == Done && running == Some(version) && script == []
    {
      if !Accepts(version) {
        return Raised;
      }
      OneAction(script, 11);
      RunsLater(script, 10, version);
      hide Runs;
      r := Begin(version);
      if r != Done {
        return;
      }
      r := Forward();
      if r == Raised {
        assert RaisesLate(old(script), 11) <==> phase == Committed;
        assert phase == Committed ==> script == AfterN(old(script), 12);
        if snapshot {
          var back := Restore();
          r := if back == Killed then Killed else Raised;
        } else {
          var back := StartOld();
          r := if back == Killed then Killed else Raised;
        }
      }
    }

    /** The preflight checks: no unfinished transaction, another version, and data that fits the executable. */
    predicate Accepts(version: nat)
      reads this
    {
      Closed() && version != Binary() && Ready()
    }

    /** The transaction proper.  It raises under the record committed exactly when that very write does. */
    method Forward() returns (r: Outcome)
      requires Safe() && !killed && phase == Prepared && alive && !snapshot
      modifies this
      ensures Safe() && Tallied(r) && target == old(target)
      ensures r == Done ==> phase == Committed && running == Runs(old(script), 9, target)
      ensures Closed() ==> phase == Committed && snapshot && r != Killed
      ensures r == Raised && phase == Committed <==> RaisesLate(old(script), 10)
      ensures r == Raised && phase == Committed ==> script == AfterN(old(script), 11)
      ensures old(script) == [] ==> r == Done && script == [] && running == Some(Binary())
    {
      hide FateOf, After, AfterN, RaisesLate, CutShort, RunningAfter, Runs;
      NothingScripted();
      RunsLater(script, 9, target);
      OneAction(script, 10);
      r := Stop();
      if r != Done {
        return;
      }
      RunsLater(script, 8, target);
      OneAction(script, 9);
      r := Save(Stopped, false);
      if r != Done {
        return;
      }
      r := TakeSnapshot();
    }

    /** Complete the snapshot, and go on from there. */
    method TakeSnapshot() returns (r: Outcome)
      requires Safe() && !killed && Parked() && phase == Stopped && alive
      modifies this
      ensures Safe() && Tallied(r) && target == old(target)
      ensures r == Done ==> phase == Committed && running == Runs(old(script), 7, target)
      ensures Closed() ==> phase == Committed && snapshot && r != Killed
      ensures r == Raised && phase == Committed <==> RaisesLate(old(script), 8)
      ensures r == Raised && phase == Committed ==> script == AfterN(old(script), 9)
      ensures old(script) == [] ==> r == Done && script == [] && running == Some(Binary())
    {
      hide FateOf, After, AfterN, RaisesLate, CutShort, RunningAfter, Held, Sound, Open, Switched, Untouched, Ready, Runs;
      NothingScripted();
      RunsLater(script, 7, target);
      OneAction(script, 8);
      r := CompleteSnapshot();
      if r != Done {
        return;
      }
      RunsLater(script, 6, target);
      OneAction(script, 7);
      r := Save(BackedUp, false);
      if r != Done {
        return;
      }
      r := SwitchAndStart();
    }

    /** From the complete snapshot to the committed candidate. */
    method SwitchAndStart() returns (r: Outcome)
      requires Safe() && !killed && Parked() && phase == BackedUp && alive && snapshot
      modifies this
      ensures Safe() && Tallied(r) && target == old(target)
      ensures r == Done ==> phase == Committed && running == Runs(old(script), 5, target)
      ensures Closed() ==> phase == Committed && snapshot && r != Killed
      ensures r == Raised && phase == Committed <==> RaisesLate(old(script), 6)
      ensures r == Raised && phase == Committed ==> script == AfterN(old(script), 7)
      ensures old(script) == [] ==> r == Done && script == [] && running == Some(Binary())
    {
      hide FateOf, After, AfterN, RaisesLate, CutShort, RunningAfter, RestoreExposes, Exposing, Held, Sound, Open, Runs;
      NothingScripted();
      RunsLater(script, 5, target);
      OneAction(script, 6);
      r := ApplyTheme();
      if r != Done {
        return;
      }
      RunsLater(script, 4, target);
      OneAction(script, 5);
      r := SwapCurrent(target);
      if r != Done {
        return;
      }
      RunsLater(script, 3, target);
      OneAction(script, 4);
      r := SwapKomari();
      if r != Done {
        return;
      }
      r := StartCandidate();
    }

    /** Start the candidate, wait until it is healthy and commit. */
    method StartCandidate() returns (r: Outcome)
      requires Safe() && !killed && stopped && phase == BackedUp && alive && snapshot && Switched()
      modifies this
      ensures Safe() && Tallied(r) && target == old(target)
      ensures r == Done ==> phase == Committed && running == Runs(old(script), 2, target)
      ensures Closed() ==> phase == Committed && snapshot && r != Killed
      ensures r == Raised && phase == Committed <==> RaisesLate(old(script), 3)
      ensures r == Raised && phase == Committed ==> script == AfterN(old(script), 4)
      ensures old(script) == [] ==> r == Done && script == [] && running == Some(Binary())
    {
      hide FateOf, After, AfterN, RaisesLate, CutShort, RunningAfter, Held, Sound, Open, Quiet, Gate, MayStart, Untouched, Runs;
      NothingScripted();
      RunsLater(script, 2, target);
      OneAction(script, 3);
      r := Save(Starting, false);
      if r != Done {
        return;
      }
      RunsLater(script, 1, target);
      OneAction(script, 2);
      r := Start();
      if r != Done {
        return;
      }
      r := ConfirmCandidate();
    }

    /** Wait until the candidate is healthy and commit. */
    method ConfirmCandidate() returns (r: Outcome)
      requires Safe() && !killed && phase == Starting && snapshot && Switched()
      modifies this
      ensures Safe() && Tallied(r) && target == old(target)
      ensures r == Done ==> phase == Committed
      ensures Closed() ==> phase == Committed && snapshot && r != Killed
      ensures r == Raised && phase == Committed <==> RaisesLate(old(script), 1)
      ensures r == Raised && phase == Committed ==> script == AfterN(old(script), 2)
      ensures old(script == [] && running == Some(Binary())) ==> r == Done && script == [] && running == Some(Binary())
      ensures r == Done && old(alive && !stopped && running == Some(target)) ==> running == Runs(old(script), 0, target)
    {
      hide FateOf, After, AfterN, RaisesLate, CutShort, RunningAfter, Held, Sound, Open, Quiet, Untouched, Ready, Runs;
      NothingScripted();
      RunsNow(script, target);
      OneAction(script, 1);
      r := CheckHealth();
      if r != Done {
        return;
      }
      LastAction(script);
      r := Save(Committed, false);
    }

    /** recover_pending refuses exactly when nothing is pending or the coordinator still lives; its other two
        refusals, for a missing snapshot and for a wrong executable, cannot happen. */
    method RecoverPending() returns (r: Recovery)
      requires Held() && !killed
      modifies this
      ensures Held() && Truthful() == old(Truthful()) && (killed <==> r == Ended(Killed))
      ensures r == NothingPending <==> old(phase == NoTransaction || phase == Committed || phase == RolledBack)
      ensures r == StillActive <==> old(phase != NoTransaction && phase != Committed && phase != RolledBack && alive)
      ensures r.Ended? <==> old(!Closed() && !alive)
      ensures !r.Ended? ==> unchanged(this)
      ensures r.Ended? ==> (r == Ended(Done) <==> faults == old(faults))
      ensures old(script == [] && !Closed() && !alive) ==> r == Ended(Done) && running == Some(old(oldVersion))
      ensures r == Ended(Done) ==> running == Runs(old(script), if old(snapshot) then 7 else 3, old(oldVersion))
      ensures r == Ended(Done) ==> phase == RolledBack && Binary() == old(oldVersion) && data == DataTree(old(oldVersion), true)
    {
      if Closed() {
        return NothingPending;
      }
      if alive {
        return StillActive;
      }
      if snapshot {
        var back := Restore();
        return Ended(back);
      }
      if phase != Prepared && phase != Stopped && phase != RollbackStarting && phase != RollbackFailed {
        return SnapshotMissing;
      }
      if Binary() != oldVersion {
        return WrongBinary;
      }
      RunsLater(script, 3, oldVersion);
      var o := Stop();
      if o == Done {
        o := StartOld();
      }
      r := Ended(o);
    }

    /** The auto-recover action does nothing to a closed journal or under a live coordinator; otherwise it recovers. */
    method AutoRecover()
      requires Held() && !killed
      modifies this
      ensures Held() && Truthful() == old(Truthful())
      ensures old(Closed() || alive) ==> unchanged(this)
      ensures old(!Closed() && !alive) && faults == old(faults) ==> phase == RolledBack
    {
      if Closed() || alive {
        return;
      }
      var r := RecoverPending();
    }
  }

  /** What befalls a host: commands run to their end or are killed, and the machine may boot. */
  datatype Act =
    | Command(version: nat, script: seq<Event>)
    | Recover(script: seq<Event>)
    | AutoRecover(script: seq<Event>)
    | Reboot(script: seq<Event>)

  /** The act leaves the record committed without telling the truth, if it is an upgrade that is accepted. */
  predicate Risky(act: Act)
  {
    act.Command? && Exposing(act.script)
  }

  /** One act.  A boot does harm exactly to a host whose journal does not tell the truth. */
  method Perform(host: Host, act: Act) returns (harmed: bool)
    requires host.Held() && !host.alive && !host.killed
    modifies host
    ensures harmed <==> act.Reboot? && !old(host.Truthful())
    ensures !harmed ==> host.Held() && !host.alive && !host.killed
    ensures harmed ==> host.MayStart() && !host.Truthful()
    ensures old(host.Safe()) && !Risky(act) ==> host.Safe()
    ensures old(host.Safe()) && !host.Safe() ==> host.phase == Committed
    ensures act.Command? && old(host.Safe() && host.Accepts(act.version)) ==> (host.Safe() <==> !Risky(act))
    ensures !act.Command? ==> host.Truthful() == old(host.Truthful())
    ensures (act.Recover? || act.AutoRecover?) && old(!host.Closed()) && host.faults == old(host.faults) ==> host.phase == RolledBack
    ensures act.Reboot? ==> host.phase == old(host.phase) && host.running == RunningAfter(act.script, None, host.MayStart(), host.Binary())
  {
    hide Exposing;
    host.Meet(act.script);
    harmed := false;
    match act {
      case Command(version, _) =>
        var r := host.UpgradeTo(version);
      case Recover(_) =>
        var r := host.RecoverPending();
      case AutoRecover(_) =>
        host.AutoRecover();
      case Reboot(_) =>
        host.Boot();
        harmed := !host.Truthful();
    }
    if !harmed {
      host.CoordinatorEnds();
    }
  }

  /** Any sequence of upgrades, recoveries and boots, each disturbed in any way.  Until a boot finds a journal that
      does not tell the truth, what runs runs on its own data; and when no upgrade of the run meets a script that
      exposes it, the host is safe all along. */
  method Run(host: Host, acts: seq<Act>) returns (harmed: bool)
    requires host.Safe() && !host.alive && !host.killed
    modifies host
    ensures !harmed ==> host.Held()
    ensures harmed ==> host.MayStart() && !host.Truthful()
    ensures (forall act :: act in acts ==> !Risky(act)) ==> !harmed && host.Safe()
    ensures acts != [] && acts[|acts| - 1].Reboot? && !harmed ==>
              host.running == RunningAfter(acts[|acts| - 1].script, None, host.MayStart(), host.Binary())
  {
    harmed := false;
    for i := 0 to |acts|
      invariant !harmed && (i > 0 && acts[i - 1].Reboot? ==> host.running == RunningAfter(acts[i - 1].script, None, host.MayStart(), host.Binary()))
      invariant host.Held() && !host.alive && !host.killed
      invariant (forall act :: act in acts ==> !Risky(act)) ==> host.Safe()
    {
      hide *;
      harmed := Perform(host, acts[i]);
      if harmed {
        return;
      }
    }
  }

  /** Exactly the exposing scripts do harm: an upgrade of a fresh host, then a boot, and the journal says committed of
      a candidate that is not installed on its data. */
  method UpgradeThenBoot(version: nat, candidate: nat, script: seq<Event>) returns (host: Host)
    requires version != candidate
    ensures fresh(host) && (host.Safe() <==> !Exposing(script))
    ensures Exposing(script) ==> host.phase == Committed && !host.Truthful() && host.running == Some(host.Binary())
  {
    host := new Host(version, Linked, []);
    hide Exposing;
    var harmed := Perform(host, Command(candidate, script));
    harmed := Perform(host, Reboot([SystemdRestarts]));
    RestartScripted();
  }

  /** One such script: eleven actions work, the write of the record committed raises when it is on disk, the service
      is stopped, and moving the data away raises when it is done. */
  lemma CommitRaisesLate()
    ensures var works, raises := Act(Works), Act(RaisesAfter);
            Exposing([works, works, works, works, works, works, works, works, works, works, works, raises, works, raises])
  {
    var works, raises := Act(Works), Act(RaisesAfter);
    var script := [works, works, works, works, works, works, works, works, works, works, works, raises, works, raises];
    WorksAhead(script, 11);
    assert script[11..] == [raises, works, raises];
    assert AfterN(script, 12) == After(script[11..]) == [works, raises];
    assert After([works, raises]) == [raises];
  }

  lemma {:induction false} WorksAhead(script: seq<Event>, n: nat)
    requires n < |script| && script[n] == Act(RaisesAfter) && forall i :: 0 <= i < n ==> script[i] == Act(Works)
    ensures RaisesLate(script, n) && AfterN(script, n + 1) == After(script[n..])
    decreases n
  {
    if n > 0 {
      WorksAhead(script[1..], n - 1);
      assert script[1..][n - 1..] == script[n..];
    }
  }

  /** Move the data away under the record committed, then boot. */
  method DisplaceThenBoot(host: Host)
    requires host.Safe() && !host.killed && host.phase == Committed && host.snapshot && host.script == []
    modifies host
    ensures host.phase == Committed && host.running == Some(host.target) && host.target == old(host.target) && !host.data.whole
  {
    hide FateOf, After, AfterN, RaisesLate, CutShort, RunningAfter, Host.Held, Host.Sound, Host.Open, Host.Quiet, Host.Gate, Host.MayStart, Host.Untouched, Host.Ready;
    NothingScripted();
    RestartScripted();
    var r := host.Stop();
    r := host.Displace();
    host.Meet([SystemdRestarts]);
    host.Boot();
  }

  /** What a manual rollback risks under a closed journal: the data has been moved away, the machine boots, and the
      gate starts the panel without it. */
  method RollbackUnderClosedJournal(version: nat, candidate: nat) returns (host: Host)
    requires version != candidate
    ensures fresh(host) && host.phase == Committed && host.running == Some(candidate) && !host.data.whole
  {
    host := new Host(version, Linked, []);
    var r := host.UpgradeTo(candidate);
    DisplaceThenBoot(host);
  }
}
