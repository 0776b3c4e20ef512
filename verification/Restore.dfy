/** Crash-safe restore of a backup, backend/database/dbcore/dbcore.go.

Every filesystem operation asks the volume's script of fates whether it works, fails or is cut short by
the death of the process; a method that returns Died has been cut short there.  Since the contracts hold
for every script, what they say of Died holds between any two operations. */
module Restore {

  datatype Fate = Works | Fails | Dies | DiesHalfway

  datatype Step = Ok | Failed | Dead

  /** Done and Error return to the caller; NothingLeft is the error "neither active nor previous data". */
  datatype Outcome = Done | Error | NothingLeft | Died

  /** The directories the data directory, the journal and the recovery name. */
  datatype Dir = Data | Previous | Stage | Aside
  datatype Marker = Pending | Committed

  /** A directory tree: which data it holds, whether all of it is there, and whether a backup.zip waits in it. */
  datatype Tree = Tree(id: nat, whole: bool, package: bool)

  type Dirs = map<Dir, Tree>

  predicate Smooth(fates: seq<Fate>)
  {
    forall i :: 0 <= i < |fates| ==> fates[i] == Works
  }

  function Head(fates: seq<Fate>): Fate
  {
    if fates == [] then Works else fates[0]
  }

  function Rest(fates: seq<Fate>): seq<Fate>
  {
    if fates == [] then [] else fates[1..]
  }

  /** The process dies in the operation. */
  predicate Dying(f: Fate)
  {
    f == Dies || f == DiesHalfway
  }

  function StepOf(f: Fate): Step
  {
    if f == Works then Ok else if f == Fails then Failed else Dead
  }

  predicate Clean(markers: set<Marker>)
  {
    Pending !in markers && Committed !in markers
  }

  /** The directory holds the given data, complete. */
  predicate Holds(dirs: Dirs, d: Dir, id: nat)
  {
    d in dirs && dirs[d].whole && dirs[d].id == id
  }

  /** What recovery will make the data directory hold is `goal`. */
  predicate LeadsTo(dirs: Dirs, markers: set<Marker>, goal: nat)
  {
    if Pending in markers && Committed !in markers && Previous in dirs then Holds(dirs, Previous, goal)
    else Holds(dirs, Data, goal)
  }

  /** What the script says after the next n operations. */
  function RestN(fates: seq<Fate>, n: nat): seq<Fate>
    decreases n
  {
    if n == 0 then fates else RestN(Rest(fates), n - 1)
  }

  /** Cleaning up after a committed restore works, but for the last step: the commit marker cannot be unlinked. */
  predicate Slips(fates: seq<Fate>)
  {
    && Head(fates) == Works && Head(RestN(fates, 1)) == Works
    && !Dying(Head(RestN(fates, 2))) && Head(RestN(fates, 3)) == Fails
  }

  /** A valid backup waits to be published. */
  predicate Waits(dirs: Dirs, valid: bool)
  {
    Data in dirs && dirs[Data].package && valid
  }

  /** The operations of a publication go as far as moving the data aside, and then not back.  `same` says that the
      backup holds the very data. */
  predicate Loses(fates: seq<Fate>, same: bool)
  {
    && Head(fates) == Works && Head(RestN(fates, 1)) == Works && Head(RestN(fates, 2)) == Works
    && match Head(RestN(fates, 3))
       case Works => !same
       case Fails => Head(RestN(fates, 4)) != Works
       case _ => true
  }

  /** Some script loses the data exactly if a valid backup waits, even one that holds the very data: the process may
      die between the two renames. */
  lemma SomeScriptLoses(dirs: Dirs, valid: bool, same: bool)
    ensures (exists fates :: Waits(dirs, valid) && Loses(fates, same)) <==> Waits(dirs, valid)
  {
    var fates := [Works, Works, Works, Dies];
    assert RestN(fates, 1) == fates[1..] && RestN(fates, 2) == fates[2..] && RestN(fates, 3) == fates[3..];
    assert Loses(fates, same);
  }

  /** A volume between two lives of the process, with the data that was last committed. */
  datatype State = State(dirs: Dirs, markers: set<Marker>, goal: nat)

  class Volume {
    var dirs: Dirs
    var markers: set<Marker>
    var fates: seq<Fate>
    /** Whether unlinking a marker can fail while the process goes on, which the program only logs. */
    const reliableUnlink: bool
    /** The data that was last committed, or that was there before any restore. */
    ghost var goal: nat
    /** The states in which the lives of the process began. */
    ghost var begun: seq<State>
    /** The process has died: it must not act any more. */
    ghost var dead: bool
    /** How many operations did not work. */
    ghost var faults: nat

    constructor (data: Tree, fates: seq<Fate>, reliableUnlink: bool)
      requires data.whole
      ensures dirs == map[Data := data] && markers == {} && goal == data.id && Recoverable()
      ensures this.fates == fates && this.reliableUnlink == reliableUnlink && !dead
    {
      dirs, markers, goal := map[Data := data], {}, data.id;
      this.fates, this.reliableUnlink := fates, reliableUnlink;
      dead, faults, begun := false, 0, [];
    }

    ghost function Now(): State
      reads this
    {
      State(dirs, markers, goal)
    }

    ghost predicate Recoverable()
      reads this
    {
      LeadsTo(dirs, markers, goal)
    }

    // ---------- single operations ----------

    /** A script that has run out works from then on. */
    method NextFate() returns (f: Fate)
      requires !dead
      modifies `fates, `faults
      ensures f == Head(old(fates)) && fates == Rest(old(fates)) && faults == old(faults) + if f == Works then 0 else 1
    {
      f, fates := Head(fates), Rest(fates);
      faults := faults + if f == Works then 0 else 1;
    }

    /** One operation has been tried. */
    twostate predicate Tried(s: Step)
      reads this
    {
      && fates == Rest(old(fates)) && faults == old(faults) + (if Head(old(fates)) == Works then 0 else 1)
      && dead == (s == Dead)
    }

    method Rename(from: Dir, to: Dir) returns (s: Step)
      requires !dead
      modifies `dirs, `fates, `faults, `dead
      ensures Tried(s)
      ensures s == if Dying(Head(old(fates))) then Dead
                   else if Head(old(fates)) == Fails || from !in old(dirs) || to in old(dirs) then Failed
                   else Ok
      ensures dirs == if s == Ok && from in old(dirs) then old(dirs)[to := old(dirs)[from]] - {from} else old(dirs)
    {
      var f := NextFate();
      if Dying(f) {
        dead := true;
        return Dead;
      }
      if f == Fails || from !in dirs || to in dirs {
        return Failed;
      }
      dirs := dirs[to := dirs[from]] - {from};
      s := Ok;
    }

    /** Removing a tree may stop anywhere in it. */
    method RemoveAll(d: Dir) returns (s: Step)
      requires !dead
      modifies `dirs, `fates, `faults, `dead
      ensures Tried(s) && s == StepOf(Head(old(fates)))
      ensures match Head(old(fates))
              case Works => dirs == old(dirs) - {d}
              case Dies => dirs == old(dirs)
              case _ => dirs == if d in old(dirs) then old(dirs)[d := old(dirs)[d].(whole := false)] else old(dirs)
    {
      var f := NextFate();
      if f == Works {
        dirs := dirs - {d};
      } else if f != Dies && d in dirs {
        dirs := dirs[d := dirs[d].(whole := false)];
      }
      s := StepOf(f);
      dead := s == Dead;
    }

    /** A marker is written to a temporary file and renamed into place. */
    method WriteMarker(m: Marker) returns (s: Step)
      requires !dead
      modifies `markers, `fates, `faults, `dead
      ensures Tried(s) && s == StepOf(Head(old(fates)))
      ensures markers == if s == Ok then old(markers) + {m} else old(markers)
    {
      var f := NextFate();
      if f == Works {
        markers := markers + {m};
      }
      s := StepOf(f);
      dead := s == Dead;
    }

    method Unlink(m: Marker) returns (s: Step)
      requires !dead
      modifies `markers, `fates, `faults, `dead
      ensures Tried(s)
      ensures s == Ok <==> Head(old(fates)) == Works || (Head(old(fates)) == Fails && m !in old(markers))
      ensures s == Failed <==> Head(old(fates)) == Fails && m in old(markers) && !reliableUnlink
      ensures markers == if s == Ok then old(markers) - {m} else old(markers)
    {
      var f := NextFate();
      if f == Works || (f == Fails && m !in markers) {
        markers := markers - {m};
        return Ok;
      }
      s := if f == Fails && !reliableUnlink then Failed else Dead;
      dead := s == Dead;
    }

    /** removeRestoreMarkers: first the journal, then the commit marker; a failure is only logged. */
    method RemoveMarkers() returns (alive: bool)
      requires !dead
      modifies `markers, `fates, `faults, `dead
      ensures alive == !dead && (faults == old(faults) ==> alive && Clean(markers)) && faults >= old(faults)
      ensures Smooth(old(fates)) ==> faults == old(faults)
      ensures markers <= old(markers)
      ensures alive && reliableUnlink ==> Clean(markers)
      ensures !alive ==> (Committed in markers <==> Committed in old(markers))
      ensures Smooth(old(fates)) ==> Smooth(fates) && alive && Clean(markers)
      ensures alive ==> !Dying(Head(old(fates))) && !Dying(Head(Rest(old(fates)))) && (Head(old(fates)) == Works ==> Pending !in markers)
      ensures alive ==> (Committed in markers <==> Committed in old(markers) && !reliableUnlink && Head(Rest(old(fates))) == Fails)
      ensures !reliableUnlink && Committed in old(markers) && !Dying(Head(old(fates))) && Head(Rest(old(fates))) == Fails ==>
                alive && fates == Rest(Rest(old(fates)))
    {
      var s := Unlink(Pending);
      if s == Dead {
        return false;
      }
      s := Unlink(Committed);
      alive := s != Dead;
    }

    /** Rename the waiting backup.zip so that it is not tried again; a failure is only logged. */
    method RetireArchive() returns (alive: bool)
      requires !dead
      modifies `dirs, `fates, `faults, `dead
      ensures alive == !Dying(Head(old(fates))) && Tried(if alive then Ok else Dead)
      ensures dirs == if Head(old(fates)) == Works && Data in old(dirs) then old(dirs)[Data := old(dirs)[Data].(package := false)] else old(dirs)
    {
      var f := NextFate();
      if Dying(f) {
        dead := true;
        return false;
      }
      if f == Works && Data in dirs {
        dirs := dirs[Data := dirs[Data].(package := false)];
      }
      alive := true;
    }

    /** Reserve a fresh name next to the data directory. */
    method ReserveAside() returns (s: Step)
      requires !dead
      modifies `dirs, `fates, `faults, `dead
      ensures Tried(s) && s == StepOf(Head(old(fates)))
      ensures dirs == if s == Ok then old(dirs) - {Aside} else old(dirs)
    {
      var f := NextFate();
      if f == Works {
        dirs := dirs - {Aside};
      }
      s := StepOf(f);
      dead := s == Dead;
    }

    // ---------- start-up recovery ----------

    /** Recovery is about to clean up after a committed restore, and its commit marker will be left over. */
    predicate LeavesMarker()
      reads this
    {
      Pending in markers && Committed in markers && !reliableUnlink && Slips(fates)
    }

    /** recoverInterruptedRestore.  From a recoverable volume it never finds both trees missing, is safe to
        interrupt, and when it completes the goal is the active data. */
    method Recover() returns (r: Outcome)
      requires !dead
      modifies `dirs, `markers, `fates, `faults, `dead
      ensures markers <= old(markers)
      ensures (r == Died <==> dead) && faults >= old(faults)
      ensures old(Recoverable()) ==> Recoverable() && r != NothingLeft
      ensures old(Recoverable()) && r == Done ==> Holds(dirs, Data, goal)
      ensures r == NothingLeft <==> Pending in old(markers) && Committed !in old(markers) && Previous !in old(dirs) && Data !in old(dirs)
      ensures Clean(old(markers)) ==> r == Done && faults == old(faults) && markers == old(markers)
      ensures r == Done && Pending in old(markers) && Previous !in old(dirs) ==> Stage !in dirs
      ensures r == Done && reliableUnlink ==> Clean(markers)
      ensures r == Done && Previous in dirs ==> Pending !in old(markers)
      ensures Pending !in old(markers) ==> dirs == old(dirs)
      ensures old(Pending in markers && Committed in markers) && r == Done ==> dirs == old(dirs) - {Previous} - {Stage}
      ensures (old(Recoverable()) || old(Pending in markers && Committed in markers)) && Smooth(old(fates)) ==>
                r == Done && Smooth(fates) && Clean(markers)
      ensures r == Done ==> (Committed in markers <==> old(LeavesMarker()))
      ensures old(LeavesMarker()) ==> r == Done && fates == RestN(old(fates), 4) && (Head(RestN(old(fates), 2)) == Works ==> Pending !in markers)
    {
      if Pending !in markers {
        if Committed in markers {
          var s := Unlink(Committed);
          if s != Ok {
            return Report(s);
          }
        }
        return Done;
      }
      if Committed in markers {
        r := FinishCommitted();
        return;
      }
      if Previous !in dirs {
        if Data !in dirs {
          return NothingLeft;
        }
        var s := RemoveAll(Stage);
        if s != Ok {
          return Report(s);
        }
        var alive := RemoveMarkers();
        return if alive then Done else Died;
      }
      r := PutBack();
    }

    function Report(s: Step): Outcome
    {
      match s
      case Ok => Done
      case Failed => Error
      case Dead => Died
    }

    method FinishCommitted() returns (r: Outcome)
      requires Pending in markers && Committed in markers
      requires !dead
      modifies `dirs, `markers, `fates, `faults, `dead
      ensures markers <= old(markers)
      ensures (r == Died <==> dead) && faults >= old(faults)
      ensures old(Recoverable()) ==> Recoverable()
      ensures r != NothingLeft && (r == Done ==> dirs == old(dirs) - {Previous} - {Stage})
      ensures r == Done && reliableUnlink ==> Clean(markers)
      ensures Smooth(old(fates)) ==> r == Done && Smooth(fates) && Clean(markers)
      ensures r == Done ==> (Committed in markers <==> old(LeavesMarker()))
      ensures old(LeavesMarker()) ==> r == Done && fates == RestN(old(fates), 4) && (Head(RestN(old(fates), 2)) == Works ==> Pending !in markers)
    {
      var s := RemoveAll(Previous);
      if s != Ok {
        return Report(s);
      }
      s := RemoveAll(Stage);
      if s != Ok {
        return Report(s);
      }
      var alive := RemoveMarkers();
      r := if alive then Done else Died;
    }

    /** The previous data goes back to its place. */
    method PutBack() returns (r: Outcome)
      requires Pending in markers && Committed !in markers && Previous in dirs
      requires !dead
      modifies `dirs, `markers, `fates, `faults, `dead
      ensures markers <= old(markers)
      ensures (r == Died <==> dead) && faults >= old(faults)
      ensures old(Recoverable()) ==> Recoverable()
      ensures r != NothingLeft && (old(Recoverable()) && r == Done ==> Holds(dirs, Data, goal))
      ensures r == Done ==> Previous !in dirs && Committed !in markers && (reliableUnlink ==> Clean(markers))
      ensures Smooth(old(fates)) ==>
                r == Done && Smooth(fates) && Clean(markers) && Data in dirs && !dirs[Data].package && Stage !in dirs && Aside !in dirs
      ensures Head(old(fates)) == Fails ==> r == Error && dirs == old(dirs) && markers == old(markers)
      ensures old(fates) == [Works, Works, Fails] && Data in old(dirs) ==> r == Error && Data in dirs && dirs[Data] == old(dirs)[Data]
    {
      var s := ReserveAside();
      if s != Ok {
        return Report(s);
      }
      var activeMoved := false;
      if Data in dirs {
        s := Rename(Data, Aside);
        if s != Ok {
          return Report(s);
        }
        activeMoved := true;
      }
      s := Rename(Previous, Data);
      if s == Dead {
        return Died;
      }
      if s == Failed {
        if activeMoved {
          s := Rename(Aside, Data);
          if s == Dead {
            return Died;
          }
        }
        return Error;
      }
      r := ClearUp(activeMoved, true);
    }

    /** What follows once the previous data is back: failures are only logged. */
    method ClearUp(aside: bool, stage: bool) returns (r: Outcome)
      requires !dead && Previous !in dirs
      modifies `dirs, `markers, `fates, `faults, `dead
      ensures (r == Done || r == Died) && (r == Died <==> dead) && faults >= old(faults)
      ensures Previous !in dirs && markers <= old(markers) && (r == Done && reliableUnlink ==> Clean(markers))
      ensures Data in dirs <==> Data in old(dirs)
      ensures Data in dirs ==> dirs[Data] == old(dirs)[Data] || dirs[Data] == old(dirs)[Data].(package := false)
      ensures Smooth(old(fates)) ==> Smooth(fates) && faults == old(faults)
      ensures faults == old(faults) ==>
                && r == Done && Clean(markers) && (Data in dirs ==> !dirs[Data].package)
                && (Aside in dirs <==> Aside in old(dirs) && !aside) && (stage ==> Stage !in dirs)
    {
      var alive := RetireArchive();
      if !alive {
        return Died;
      }
      alive := DropTrees(aside, stage);
      if !alive {
        return Died;
      }
      alive := RemoveMarkers();
      r := if alive then Done else Died;
    }

    method DropTrees(aside: bool, stage: bool) returns (alive: bool)
      requires !dead
      modifies `dirs, `fates, `faults, `dead
      ensures alive == !dead && faults >= old(faults)
      ensures forall d :: d == Data || d == Previous ==> (d in dirs <==> d in old(dirs)) && (d in dirs ==> dirs[d] == old(dirs)[d])
      ensures Smooth(old(fates)) ==> Smooth(fates) && faults == old(faults)
      ensures faults == old(faults) ==>
                alive && (Aside in dirs <==> Aside in old(dirs) && !aside) && (stage ==> Stage !in dirs)
    {
      var s;
      if aside {
        s := RemoveAll(Aside);
        if s == Dead {
          return false;
        }
      }
      if stage {
        s := RemoveAll(Stage);
        if s == Dead {
          return false;
        }
      }
      alive := true;
    }

    // ---------- publishing a backup ----------

    /** Extract and validate the archive into a fresh staging directory; names reserved before are gone. */
    method BuildStage(restored: nat, valid: bool) returns (s: Step)
      requires !dead
      modifies `dirs, `fates, `faults, `dead
      ensures Tried(s) && s == if Dying(Head(old(fates))) then Dead else if Head(old(fates)) == Fails || !valid then Failed else Ok
      ensures dirs == (old(dirs) - {Previous})[Stage := Tree(restored, s == Ok, false)]
    {
      dirs := (dirs - {Previous})[Stage := Tree(restored, false, false)];
      var f := NextFate();
      if Dying(f) {
        dead := true;
        return Dead;
      }
      if f == Fails || !valid {
        return Failed;
      }
      dirs := dirs[Stage := Tree(restored, true, false)];
      s := Ok;
    }

    /** The deferred removal of a staging directory that was not published; its error is ignored. */
    method DropStage() returns (r: Outcome)
      requires !dead
      modifies `dirs, `fates, `faults, `dead
      ensures (r == Error || r == Died) && (r == Died <==> dead) && faults >= old(faults)
      ensures faults == old(faults) ==> r == Error && Stage !in dirs
      ensures forall d :: d != Stage ==> (d in dirs <==> d in old(dirs)) && (d in dirs ==> dirs[d] == old(dirs)[d])
    {
      var s := RemoveAll(Stage);
      r := if s == Dead then Died else Error;
    }

    /** A published restore awaits its verdict: the goal lies in Previous, the restored data is active. */
    ghost predicate Published(restored: nat)
      reads this
    {
      Pending in markers && Holds(dirs, Previous, goal) && Holds(dirs, Data, restored)
    }

    /** restoreStagedBackup after its recovery.  Publishing is safe to interrupt as long as no commit marker of an
        earlier restore is left over.  With one, recovery will keep whatever is active, so that the data is lost
        exactly if a valid backup waits and the script loses it. */
    method Publish(restored: nat, valid: bool) returns (r: Outcome, staged: bool)
      requires !dead
      modifies `dirs, `markers, `fates, `faults, `dead
      ensures Committed in markers ==> Committed in old(markers)
      ensures (r == Died <==> dead) && faults >= old(faults)
      ensures r != NothingLeft && (staged ==> r == Done && Data in dirs && !dirs[Data].package)
      ensures old(Recoverable() && Holds(dirs, Data, goal) && Committed !in markers) ==> Recoverable()
      ensures old(Holds(dirs, Data, goal) && Committed in markers) ==>
                (Recoverable() <==> !(Waits(old(dirs), valid) && Loses(old(fates), restored == goal)))
      ensures r == Done && !staged <==> Data !in old(dirs) || !old(dirs)[Data].package
      ensures staged ==> Head(RestN(old(fates), 3)) == Works
      ensures staged ==> faults == old(faults) && Waits(old(dirs), valid)
      ensures old(Holds(dirs, Data, goal)) && r == Error && faults <= old(faults) + 1 ==> Holds(dirs, Data, goal)
      ensures old(Holds(dirs, Data, goal)) && staged ==> Published(restored) && (Committed in markers <==> Committed in old(markers))
      ensures old(Holds(dirs, Data, goal)) && r == Done && !staged ==> dirs == old(dirs) && markers == old(markers)
      ensures Smooth(old(fates)) && !staged ==> markers == old(markers)
      ensures old(Holds(dirs, Data, goal) && dirs[Data].package) && valid && Smooth(old(fates)) ==> staged && Smooth(fates)
    {
      if Data !in dirs || !dirs[Data].package {
        return Done, false;
      }
      staged := false;
      var s := BuildStage(restored, valid);
      if s == Ok {
        s := WriteMarker(Pending);
      }
      if s == Failed {
        r := DropStage();
        return;
      }
      if s == Dead {
        return Died, false;
      }
      r, staged := Swap(restored);
    }

    /** Move the current data aside and the staged data into its place. */
    method Swap(restored: nat) returns (r: Outcome, staged: bool)
      requires Pending in markers && Previous !in dirs && Stage in dirs && dirs[Stage] == Tree(restored, true, false) && Data in dirs
      requires !dead
      modifies `dirs, `markers, `fates, `faults, `dead
      ensures Committed in markers ==> Committed in old(markers)
      ensures (r == Died <==> dead) && faults >= old(faults)
      ensures r != NothingLeft && (staged <==> r == Done) && (staged ==> Data in dirs && !dirs[Data].package)
      ensures old(Holds(dirs, Data, goal) && Committed !in markers) ==> Recoverable()
      ensures old(Holds(dirs, Data, goal) && Committed in markers) ==>
                (Recoverable() <==> !match Head(old(fates))
                                     case Works => (match Head(RestN(old(fates), 1))
                                                    case Works => restored != goal
                                                    case Fails => Head(RestN(old(fates), 2)) != Works
                                                    case _ => true)
                                     case _ => false)
      ensures old(Holds(dirs, Data, goal)) && staged ==> Published(restored) && markers == old(markers)
      ensures Smooth(old(fates)) ==> staged && Smooth(fates)
      ensures staged ==> faults == old(faults) && Head(Rest(old(fates))) == Works
      ensures r == Error && faults == old(faults) + 1 ==>
                Data in dirs && dirs[Data] == old(dirs)[Data] && Clean(markers) && Stage !in dirs && Previous !in dirs
      ensures r == Error ==> faults > old(faults)
    {
      staged := false;
      var s := Rename(Data, Previous);
      if s == Dead {
        return Died, false;
      }
      if s == Failed {
        r := Withdraw();
        return;
      }
      s := Rename(Stage, Data);
      if s == Dead {
        return Died, false;
      }
      if s == Failed {
        s := Rename(Previous, Data);
        if s == Dead {
          return Died, false;
        }
        if s == Failed {
          r := DropStage();
          return;
        }
        r := Withdraw();
        return;
      }
      r, staged := Done, true;
    }

    /** Take the journal back and drop the stage. */
    method Withdraw() returns (r: Outcome)
      requires !dead
      modifies `dirs, `markers, `fates, `faults, `dead
      ensures (r == Error || r == Died) && (r == Died <==> dead) && faults >= old(faults)
      ensures faults == old(faults) ==> r == Error && Clean(markers) && Stage !in dirs
      ensures markers <= old(markers)
      ensures forall d :: d != Stage ==> (d in dirs <==> d in old(dirs)) && (d in dirs ==> dirs[d] == old(dirs)[d])
    {
      var alive := RemoveMarkers();
      if !alive {
        return Died;
      }
      r := DropStage();
    }

    // ---------- the verdict ----------

    /** stagedRestore.Commit.  The goal becomes the restored data at the very step that writes the commit
        marker, and not before. */
    method Commit(restored: nat) returns (r: Outcome)
      requires !dead
      modifies `dirs, `markers, `fates, `faults, `dead, `goal
      ensures goal == old(goal) || goal == restored
      ensures r != NothingLeft && (r == Died <==> dead) && faults >= old(faults)
      ensures r == Error ==> faults == old(faults) + 1
      ensures old(Published(restored) && Committed !in markers) ==>
                && Recoverable()
                && goal == (if Committed in markers || r == Done then restored else old(goal))
                && (r == Done ==> Holds(dirs, Data, restored))
                && (r == Done && reliableUnlink ==> Clean(markers) || (Pending in markers && Committed in markers))
                && (r == Error ==> dirs == old(dirs) && markers == old(markers))
      ensures Smooth(old(fates)) ==> r == Done && goal == restored && Clean(markers) && dirs == old(dirs) - {Previous}
    {
      var s := WriteMarker(Committed);
      if s != Ok {
        return Report(s);
      }
      goal := restored;
      s := RemoveAll(Previous);
      if s == Failed {
        return Done;
      }
      if s == Dead {
        return Died;
      }
      var alive := RemoveMarkers();
      r := if alive then Done else Died;
    }

    /** stagedRestore.Rollback. */
    method Rollback(restored: nat) returns (r: Outcome)
      requires !dead
      modifies `dirs, `markers, `fates, `faults, `dead
      ensures markers <= old(markers)
      ensures (r == Died <==> dead) && faults >= old(faults)
      ensures r != NothingLeft
      ensures old(Published(restored) && Committed !in markers) ==> Recoverable() && (r == Done ==> Holds(dirs, Data, goal))
      ensures reliableUnlink && r == Done ==> Clean(markers)
      ensures old(Published(restored)) && Smooth(old(fates)) ==>
                r == Done && Clean(markers) && Previous !in dirs && Aside !in dirs && Data in dirs && !dirs[Data].package
      ensures old(Published(restored)) && faults == old(faults) ==> r == Done
      ensures Head(old(fates)) == Fails ==> r == Error && dirs == old(dirs) && markers == old(markers)
      ensures old(fates) == [Works, Works, Fails] && old(Published(restored)) ==> r == Error && Holds(dirs, Data, restored)
    {
      var s := ReserveAside();
      if s != Ok {
        return Report(s);
      }
      s := Rename(Data, Aside);
      if s != Ok {
        return Report(s);
      }
      s := Rename(Previous, Data);
      if s == Dead {
        return Died;
      }
      if s == Failed {
        s := Rename(Aside, Data);
        return if s == Dead then Died else Error;
      }
      r := ClearUp(true, false);
    }
  }

  // ---------- whole histories ----------

  /** One life of the process: what becomes of its filesystem operations, which backup waits and whether it is
      valid, whether the panel starts up with it, and whether another backup is uploaded afterwards. */
  datatype Life = Life(fates: seq<Fate>, restored: nat, valid: bool, startsUp: bool, upload: bool)

  /** The life would publish a valid backup over a left-over commit marker. */
  predicate Risky(dirs: Dirs, markers: set<Marker>, life: Life, reliableUnlink: bool)
  {
    Pending in markers && Committed in markers && !reliableUnlink && Slips(life.fates) && Waits(dirs, life.valid)
  }

  /** Nothing is left over and nothing is in the way: the life publishes and commits the backup that waits. */
  predicate Restores(before: State, life: Life)
  {
    before.markers == {} && Waits(before.dirs, life.valid) && Smooth(life.fates) && life.startsUp
  }

  predicate Recovers(s: State)
  {
    LeadsTo(s.dirs, s.markers, s.goal)
  }

  /** What one life makes of the volume. */
  predicate Lived(before: State, life: Life, after: State, reliableUnlink: bool)
  {
    var risky := Risky(before.dirs, before.markers, life, reliableUnlink);
    && (after.goal == before.goal || (life.valid && life.startsUp && after.goal == life.restored))
    && (Committed in after.markers ==> Committed in before.markers || (life.valid && life.startsUp))
    && (Recovers(before) && !risky ==> Recovers(after))
    && (Recovers(before) && risky && RestN(life.fates, 4) == [Works, Works, Works, Dies] ==> !Recovers(after) && after.goal == before.goal)
    && (Recovers(before) && Smooth(life.fates) ==> Clean(after.markers))
    && (Recovers(before) && Restores(before, life) ==> after.goal == life.restored)
  }

  /** One life: recover, publish a waiting backup, commit it or roll it back, also when it cannot be committed.  It is
      safe unless it is risky; and after the steps that make it risky, some script makes it lose the data. */
  method Live(v: Volume, life: Life)
    modifies v
    ensures v.begun == old(v.begun) + [old(v.Now())] && Lived(old(v.Now()), life, v.Now(), v.reliableUnlink)
    ensures old(v.markers == {} && Holds(v.dirs, Data, v.goal)) && life.startsUp && !v.dead && v.faults <= old(v.faults) + 1 ==>
              Holds(v.dirs, Data, v.goal)
    ensures old(v.markers == {} && Holds(v.dirs, Data, v.goal) && v.dirs[Data].package) && Smooth(life.fates) && life.valid ==>
              && v.goal == (if life.startsUp then life.restored else old(v.goal)) && Holds(v.dirs, Data, v.goal) && Clean(v.markers)
              && v.dirs[Data].package == life.upload
  {
    v.begun := v.begun + [v.Now()];
    v.dead, v.fates := false, life.fates;
    var r := v.Recover();
    if r != Done {
      return;
    }
    PublishAndJudge(v, life);
  }

  /** The rest of a life whose recovery has succeeded. */
  method PublishAndJudge(v: Volume, life: Life)
    requires !v.dead
    modifies v
    ensures Committed in v.markers ==> Committed in old(v.markers) || (life.valid && life.startsUp)
    ensures v.begun == old(v.begun) && (v.goal == old(v.goal) || (life.valid && life.startsUp && v.goal == life.restored))
    ensures old(Holds(v.dirs, Data, v.goal) && Clean(v.markers)) && Smooth(old(v.fates)) ==> Clean(v.markers)
    ensures old(v.Recoverable() && Holds(v.dirs, Data, v.goal)) && !(Committed in old(v.markers) && Waits(old(v.dirs), life.valid)) ==> v.Recoverable()
    ensures old(Holds(v.dirs, Data, v.goal) && Committed in v.markers) && Waits(old(v.dirs), life.valid) && old(v.fates) == [Works, Works, Works, Dies] ==>
              !v.Recoverable() && v.goal == old(v.goal)
    ensures old(Holds(v.dirs, Data, v.goal) && Committed !in v.markers) && life.startsUp && !v.dead && v.faults <= old(v.faults) + 1 ==>
              Holds(v.dirs, Data, v.goal)
    ensures old(Holds(v.dirs, Data, v.goal) && Committed !in v.markers && v.dirs[Data].package) && Smooth(old(v.fates)) && life.valid ==>
              && v.goal == (if life.startsUp then life.restored else old(v.goal)) && Holds(v.dirs, Data, v.goal) && Clean(v.markers)
              && v.dirs[Data].package == life.upload
  {
    ThreeThenDeath();
    assert Loses([Works, Works, Works, Dies], life.restored == v.goal);
    hide Loses, Slips, RestN, Rest, Head, Smooth;
    var r, staged := v.Publish(life.restored, life.valid);
    if r != Done {
      return;
    }
    if staged {
      if life.startsUp {
        r := v.Commit(life.restored);
        if r == Error {
          r := v.Rollback(life.restored);
        }
      } else {
        r := v.Rollback(life.restored);
      }
      if r != Done {
        return;
      }
    }
    if life.upload && Data in v.dirs {
      v.dirs := v.dirs[Data := v.dirs[Data].(package := true)];
    }
  }

  lemma ThreeThenDeath()
    ensures RestN([Works, Works, Works, Dies], 1) == [Works, Works, Dies] && RestN([Works, Works, Works, Dies], 2) == [Works, Dies]
    ensures RestN([Works, Works, Works, Dies], 3) == [Dies]
    ensures Head([Works, Works, Works, Dies]) == Head([Works, Works, Dies]) == Head([Works, Dies]) == Works && Head([Dies]) == Dies
  {
    var fates := [Works, Works, Works, Dies];
    assert fates[1..] == [Works, Works, Dies] && fates[1..][1..] == [Works, Dies] && fates[1..][1..][1..] == [Dies];
  }

  /** Some life begins risky. */
  ghost predicate Risks(states: seq<State>, lives: seq<Life>, reliableUnlink: bool)
    requires |states| > |lives|
  {
    exists i :: 0 <= i < |lives| && Risky(states[i].dirs, states[i].markers, lives[i], reliableUnlink)
  }

  /** Each life leads from one state to the next. */
  ghost predicate LivedOn(states: seq<State>, lives: seq<Life>, reliableUnlink: bool)
  {
    |states| == |lives| + 1 && forall i :: 0 <= i < |lives| ==> Lived(states[i], lives[i], states[i + 1], reliableUnlink)
  }

  lemma OneMoreLife(states: seq<State>, lives: seq<Life>, after: State, life: Life, reliableUnlink: bool)
    requires LivedOn(states, lives, reliableUnlink) && Lived(states[|lives|], life, after, reliableUnlink)
    ensures LivedOn(states + [after], lives + [life], reliableUnlink)
    ensures Risks(states + [after], lives + [life], reliableUnlink) <==>
              Risks(states, lives, reliableUnlink) || Risky(states[|lives|].dirs, states[|lives|].markers, life, reliableUnlink)
  {
    hide Lived, Risky;
    var states', lives' := states + [after], lives + [life];
    assert forall i :: 0 <= i <= |lives| ==> states'[i] == states[i];
    assert forall i :: 0 <= i < |lives| ==> lives'[i] == lives[i];
    assert lives'[|lives|] == life && states'[|lives| + 1] == after;
    if i :| 0 <= i < |lives| && Risky(states[i].dirs, states[i].markers, lives[i], reliableUnlink) {
      assert Risky(states'[i].dirs, states'[i].markers, lives'[i], reliableUnlink);
    }
    if Risky(states[|lives|].dirs, states[|lives|].markers, life, reliableUnlink) {
      assert Risky(states'[|lives|].dirs, states'[|lives|].markers, lives'[|lives|], reliableUnlink);
    }
  }

  /** Lives lead from `first` to `now`, on the record, and safely unless one begins risky. */
  ghost predicate Course(first: State, states: seq<State>, lives: seq<Life>, before: seq<State>, begun: seq<State>, now: State, reliableUnlink: bool)
  {
    && LivedOn(states, lives, reliableUnlink)
    && states[0] == first && states[|lives|] == now && begun == before + states[..|lives|]
    && (!Risks(states, lives, reliableUnlink) ==> Recovers(now))
    && (!Risks(states, lives, reliableUnlink) && lives != [] && Restores(states[|lives| - 1], lives[|lives| - 1]) ==> now.goal == lives[|lives| - 1].restored)
  }

  lemma CourseBegins(first: State, before: seq<State>, reliableUnlink: bool)
    requires Recovers(first)
    ensures Course(first, [first], [], before, before, first, reliableUnlink)
  {
    assert before + [first][..0] == before;
  }

  lemma CourseGoesOn(first: State, states: seq<State>, lives: seq<Life>, i: nat, before: seq<State>, begun: seq<State>, now: State, reliableUnlink: bool,
                     after: State)
    requires i < |lives| && Course(first, states, lives[..i], before, begun, now, reliableUnlink) && Lived(now, lives[i], after, reliableUnlink)
    ensures Course(first, states + [after], lives[..i + 1], before, begun + [now], after, reliableUnlink)
  {
    hide Lived, LivedOn, Risks, Risky, Restores, Recovers;
    var states', lives' := states + [after], lives[..i + 1];
    assert lives' == lives[..i] + [lives[i]];
    assert |states| == i + 1 by {
      CourseLength(first, states, lives[..i], before, begun, now, reliableUnlink);
    }
    OneMoreLife(states, lives[..i], after, lives[i], reliableUnlink);
    SafeLife(now, lives[i], after, reliableUnlink);
    assert states'[..i + 1] == states[..i] + [now];
    assert begun + [now] == before + states'[..i + 1];
  }

  lemma CourseLength(first: State, states: seq<State>, lives: seq<Life>, before: seq<State>, begun: seq<State>, now: State, reliableUnlink: bool)
    requires Course(first, states, lives, before, begun, now, reliableUnlink)
    ensures |states| == |lives| + 1
  {
  }

  /** Any number of lives, each cut short or disturbed anywhere, and then a recovery that nothing disturbs: unless one
      of the lives was risky, the data directory holds what was last committed, in full.  None is when unlinking is
      reliable, or when no script both slips and has a valid backup.  The states are those the lives began with, and
      at last the one they left. */
  method LiveOn(v: Volume, lives: seq<Life>) returns (ghost states: seq<State>)
    requires v.Recoverable()
    modifies v
    ensures LivedOn(states, lives, v.reliableUnlink) && states[0] == old(v.Now()) && v.begun == old(v.begun) + states[..|lives|]
    ensures v.goal == states[|lives|].goal
    ensures !Risks(states, lives, v.reliableUnlink) && lives != [] && Restores(states[|lives| - 1], lives[|lives| - 1]) ==>
              v.goal == lives[|lives| - 1].restored
    ensures !Risks(states, lives, v.reliableUnlink) ==> Holds(v.dirs, Data, v.goal) && Clean(v.markers)
    ensures v.reliableUnlink || (forall life :: life in lives ==> !(Slips(life.fates) && life.valid)) ==>
              Holds(v.dirs, Data, v.goal) && Clean(v.markers)
  {
    hide LivedOn, Lived, Risks, Risky, Restores, LeadsTo, Holds, Clean, Slips;
    states := [v.Now()];
    CourseBegins(v.Now(), v.begun, v.reliableUnlink);
    assert lives[..0] == [];
    for i := 0 to |lives|
      invariant Course(old(v.Now()), states, lives[..i], old(v.begun), v.begun, v.Now(), v.reliableUnlink)
    {
      hide *;
      ghost var begun, now := v.begun, v.Now();
      Live(v, lives[i]);
      CourseGoesOn(old(v.Now()), states, lives, i, old(v.begun), begun, now, v.reliableUnlink, v.Now());
      states := states + [v.Now()];
    }
    assert lives[..|lives|] == lives;
    CourseLength(old(v.Now()), states, lives, old(v.begun), v.begun, v.Now(), v.reliableUnlink);
    if Risks(states, lives, v.reliableUnlink) {
      SomeSlip(states, lives, v.reliableUnlink);
    }
    Settle(v);
  }

  lemma SomeSlip(states: seq<State>, lives: seq<Life>, reliableUnlink: bool)
    requires |states| > |lives| && Risks(states, lives, reliableUnlink)
    ensures !reliableUnlink && exists life :: life in lives && Slips(life.fates) && life.valid
  {
    var i :| 0 <= i < |lives| && Risky(states[i].dirs, states[i].markers, lives[i], reliableUnlink);
    assert lives[i] in lives && Slips(lives[i].fates);
  }

  /** A recovery that nothing disturbs. */
  method Settle(v: Volume)
    modifies v
    ensures v.goal == old(v.goal) && v.begun == old(v.begun)
    ensures old(Recovers(v.Now())) ==> Holds(v.dirs, Data, v.goal) && Clean(v.markers)
  {
    v.dead, v.fates := false, [];
    var r := v.Recover();
  }

  lemma SafeLife(before: State, life: Life, after: State, reliableUnlink: bool)
    requires Lived(before, life, after, reliableUnlink)
    ensures Recovers(before) && !Risky(before.dirs, before.markers, life, reliableUnlink) ==> Recovers(after)
    ensures Recovers(before) && Restores(before, life) ==> after.goal == life.restored
  {
  }

  /** What a risky life costs.  A restore was committed, and cleaning up after it the journal is
      removed but the commit marker cannot be: recovery reports success.  The next backup is published in the
      same life; the process dies before any verdict; and the following recovery removes the only copy of the
      committed data and keeps the restored one. */
  method LeftOverMarkerLosesData(committed: nat, restored: nat) returns (v: Volume)
    requires committed != restored
    ensures fresh(v) && v.goal == committed
    ensures Holds(v.dirs, Data, restored) && Previous !in v.dirs && Stage !in v.dirs && !v.Recoverable()
  {
    v := new Volume(Tree(committed, true, true), [Works, Works, Works, Fails], false);
    v.markers := {Pending, Committed};
    var r := v.Recover();
    assert r == Done && Pending !in v.markers && Committed in v.markers && Holds(v.dirs, Data, committed);
    var staged: bool;
    r, staged := v.Publish(restored, true);
    assert staged && v.Published(restored);
    r := v.Recover();
    assert r == Done;
  }
}
