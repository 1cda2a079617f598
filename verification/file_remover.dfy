/** `removeFileIfMatching` and `restoreMovedFile` as they run, call by call, against another process. */
module FileRemoverModel {
  import opened Wrappers
  import opened Bytes
  import opened FileRemoval

  /** Why a call failed: the name does not exist, it already exists, or the system refused for another reason. */
  datatype Errno = Absent | Exists | Refused

  /**
   * The local variables of the function, the file system it shares with the other process, and what that
   * process and the system will do: `script` holds the meddling before each call, `faults` which calls the
   * system refuses. `machine` is the state of the protocol that the calls so far have led to.
   */
  class FileRemover {
    const terms: Terms
    const script: seq<seq<Meddle>>
    const faults: seq<bool>
    var calls: nat
    var fs: Fs
    var ino: nat
    var handle: nat
    var inspected: seq<byte>
    var moved: bool
    var removed: bool
    ghost var machine: Removal
    ghost var run: Execution

    constructor (terms: Terms, fs: Fs, script: seq<seq<Meddle>>, faults: seq<bool>)
      requires Ready(fs)
      ensures Valid() && machine == Begin(fs) && !moved
      ensures this.terms == terms && this.script == script && this.faults == faults
    {
      this.terms, this.script, this.faults, this.fs := terms, script, faults, fs;
      calls, ino, handle, inspected, moved, removed := 0, 0, 0, [], false, false;
      machine, run := Begin(fs), Execution([Begin(fs)], []);
    }

    ghost predicate Coupled(r: Removal)
      reads this
    {
      r.fs == fs && r.ino == ino && r.handle == handle && r.inspected == inspected && r.removed == removed
    }

    /** The calls so far are a run of the protocol, and the variables are its state. */
    ghost predicate Valid()
      reads this
    {
      Follows() && Coupled(machine)
    }

    /** The protocol is where its run so far has led. */
    ghost predicate Follows()
      reads this
    {
      Behaves(terms, run) && machine == run.states[|run.actions|]
    }

    /** One thing the other process does. */
    method Suffer(m: Meddle)
      requires Valid()
      modifies this`fs, this`machine, this`run
      ensures Valid() && machine == old(machine).(fs := fs)
    {
      hide Behaves, Meddled;
      ExtendBehaves(terms, run, Env(m));
      BehavesMeans(terms, run);
      fs := Meddled(fs, m);
      machine := machine.(fs := fs);
      run := Extend(terms, run, Env(m));
    }

    /** The other process runs until the next call; the value says whether the system will refuse that call. */
    method Await() returns (fault: bool)
      requires Valid()
      modifies this`fs, this`calls, this`machine, this`run
      ensures Valid() && machine == old(machine).(fs := fs)
      ensures Safe(terms, machine)
    {
      hide Behaves, Meddled, Safe;
      if calls < |script| {
        var steps := script[calls];
        var i := 0;
        while i < |steps|
          invariant 0 <= i <= |steps|
          invariant Valid() && machine == old(machine).(fs := fs)
        {
          Suffer(steps[i]);
          i := i + 1;
        }
      }
      BehavesMeans(terms, run);
      RunKeepsSafe(terms, run, |run.actions|);
      fault := calls < |faults| && faults[calls];
      calls := calls + 1;
    }

    /** Records a call that the variables already follow. */
    ghost method Called(fault: bool)
      requires Follows() && Coupled(Act(terms, machine, Op(fault)))
      modifies this`machine, this`run
      ensures Valid() && machine == Act(terms, old(machine), Op(fault))
      ensures Safe(terms, machine)
    {
      hide Behaves, Safe, Act;
      BehavesMeans(terms, run);
      ExtendBehaves(terms, run, Op(fault));
      machine := Act(terms, machine, Op(fault));
      run := Extend(terms, run, Op(fault));
      RunKeepsSafe(terms, run, |run.actions|);
    }

    /** Where the protocol goes on after the `try` block. */
    ghost predicate Leaves(error: Option<Errno>)
      reads this
    {
      && Valid() && moved == machine.moved && machine.pc == (if moved then Recovering else Unpinning)
      && machine.failed == (error.Some? && error != Some(Absent)) && !machine.cleanupFailed
    }

    /** Inspects the pinned file: `None` with `accepted` when its contents may be removed. */
    method InspectPinned() returns (accepted: bool, error: Option<Errno>)
      requires Valid() && machine.pc == Inspecting && moved == machine.moved && !machine.failed && !machine.cleanupFailed
      modifies this
      ensures if accepted then Valid() && machine.pc == Renaming && moved == machine.moved && !machine.failed && !machine.cleanupFailed && error == None
              else Leaves(error)
    {
      hide Safe, Behaves, ReadStep, RenameStep, DecideStep, RestoreStep, FinallyStep;
      accepted := false;
      var fault := Await();
      InspectingSafe(terms, machine);
      if fault {
        Called(fault);
        return false, Some(Refused);
      }
      ino := fs.pinned.value;
      var regular := fs.inodes[ino].regular;
      Called(fault);
      if !regular {
        return false, None;
      }
      accepted, error := OpenPinned();
    }

    /** Opens the pinned file without following links. */
    method OpenPinned() returns (accepted: bool, error: Option<Errno>)
      requires Valid() && machine.pc == Opening && moved == machine.moved && !machine.failed && !machine.cleanupFailed
      modifies this
      ensures if accepted then Valid() && machine.pc == Renaming && moved == machine.moved && !machine.failed && !machine.cleanupFailed && error == None
              else Leaves(error)
    {
      hide Safe, Behaves, ReadStep, RenameStep, DecideStep, RestoreStep, FinallyStep;
      var fault := Await();
      InspectingSafe(terms, machine);
      if fault {
        Called(fault);
        return false, Some(Refused);
      }
      handle := fs.pinned.value;
      Called(fault);
      accepted, error := ReadPinned();
    }

    /** Measures the opened file, then reads it. */
    method ReadPinned() returns (accepted: bool, error: Option<Errno>)
      requires Valid() && machine.pc == Measuring && moved == machine.moved && !machine.failed && !machine.cleanupFailed
      modifies this
      ensures if accepted then Valid() && machine.pc == Renaming && moved == machine.moved && !machine.failed && !machine.cleanupFailed && error == None
              else Leaves(error)
    {
      hide Safe, Behaves, PinStep, RenameStep, DecideStep, RestoreStep, FinallyStep;
      var fault := Await();
      InspectingSafe(terms, machine);
      var size := |fs.inodes[handle].bytes|;
      Called(fault);
      if fault || (terms.maximum.Some? && size > terms.maximum.value) {
        return false, Some(Refused);
      }
      accepted, error := ReadContents();
    }

    method ReadContents() returns (accepted: bool, error: Option<Errno>)
      requires Valid() && machine.pc == Reading && moved == machine.moved && !machine.failed && !machine.cleanupFailed
      modifies this
      ensures if accepted then Valid() && machine.pc == Renaming && moved == machine.moved && !machine.failed && !machine.cleanupFailed && error == None
              else Leaves(error)
    {
      hide Safe, Behaves, PinStep, RenameStep, DecideStep, RestoreStep, FinallyStep;
      var fault := Await();
      InspectingSafe(terms, machine);
      if fault {
        Called(fault);
        return false, Some(Refused);
      }
      inspected := fs.inodes[handle].bytes;
      var same := fs.inodes[handle].regular && handle == ino;
      Called(fault);
      if !same {
        return false, None;
      }
      accepted, error := Validate();
    }

    /** The caller's judgement of the contents. */
    method Validate() returns (accepted: bool, error: Option<Errno>)
      requires Valid() && machine.pc == Validating && moved == machine.moved && !machine.failed && !machine.cleanupFailed
      modifies this
      ensures if accepted then Valid() && machine.pc == Renaming && moved == machine.moved && !machine.failed && !machine.cleanupFailed && error == None
              else Leaves(error)
    {
      hide Safe, Behaves, PinStep, RenameStep, DecideStep, RestoreStep, FinallyStep;
      var fault := Await();
      InspectingSafe(terms, machine);
      Called(fault);
      if !terms.accepts(inspected) {
        return false, Some(Refused);
      }
      return true, None;
    }

    /** Renames the target aside, decides whether it is the inspected file, and removes or restores it. */
    method TakeAside() returns (error: Option<Errno>)
      requires Valid() && machine.pc == Renaming && moved == machine.moved && !machine.failed && !machine.cleanupFailed
      modifies this
      ensures Leaves(error)
    {
      hide Safe, Behaves, PinStep, ReadStep, DecideStep, RestoreStep, FinallyStep;
      var fault := Await();
      InspectingSafe(terms, machine);
      if fault {
        Called(fault);
        return Some(Refused);
      }
      if fs.target == None {
        Called(fault);
        return Some(Absent);
      }
      fs := fs.(moved := fs.target, target := None);
      moved := true;
      Called(fault);
      error := SettleMoved();
    }

    method SettleMoved() returns (error: Option<Errno>)
      requires Valid() && machine.pc == Comparing && moved == machine.moved && !machine.failed && !machine.cleanupFailed
      modifies this
      ensures Leaves(error)
    {
      hide Safe, Behaves, Act;
      var same, refused := CompareMoved();
      if refused {
        return Some(Refused);
      }
      var done := false;
      if same {
        done, error := RereadMoved();
        if done {
          return error;
        }
      }
      SettlingNow();
      error := RestoreMovedFile();
      if error == None {
        moved := false;
      }
    }

    /** Whether the moved file is the inspected inode. */
    method CompareMoved() returns (same: bool, refused: bool)
      requires Valid() && machine.pc == Comparing && moved == machine.moved && !machine.failed && !machine.cleanupFailed
      modifies this
      ensures if refused then Leaves(Some(Refused))
              else Valid() && machine.pc == (if same then Rereading else Restoring) && moved == machine.moved
                   && !machine.failed && !machine.cleanupFailed
    {
      hide Safe, Behaves, PinStep, ReadStep, RenameStep, RestoreStep, FinallyStep;
      var fault := Await();
      SettlingSafe(terms, machine);
      if fault {
        Called(fault);
        return false, true;
      }
      same := fs.inodes[fs.moved.value].regular && fs.moved.value == ino;
      Called(fault);
      return same, false;
    }

    /** Reads the moved file again and unlinks it if its contents are the inspected ones. */
    method RereadMoved() returns (done: bool, error: Option<Errno>)
      requires Valid() && machine.pc == Rereading && moved == machine.moved && !machine.failed && !machine.cleanupFailed
      modifies this
      ensures if done then Leaves(error)
              else Valid() && machine.pc == Restoring && moved == machine.moved && !machine.failed && !machine.cleanupFailed
    {
      hide Safe, Behaves, PinStep, ReadStep, RenameStep, RestoreStep, FinallyStep;
      var fault := Await();
      SettlingSafe(terms, machine);
      if fault {
        Called(fault);
        return true, Some(Refused);
      }
      var equal := fs.inodes[fs.moved.value].bytes == inspected;
      Called(fault);
      if !equal {
        return false, None;
      }
      error := UnlinkMoved();
      return true, error;
    }

    /** Removes the inspected file under its moved name. */
    method UnlinkMoved() returns (error: Option<Errno>)
      requires Valid() && machine.pc == Unlinking && moved == machine.moved && !machine.failed && !machine.cleanupFailed
      modifies this
      ensures Leaves(error)
    {
      hide Safe, Behaves, PinStep, ReadStep, RenameStep, RestoreStep, FinallyStep;
      var fault := Await();
      SettlingSafe(terms, machine);
      if fault {
        Called(fault);
        return Some(Refused);
      }
      fs := fs.(moved := None);
      moved := false;
      removed := true;
      Called(fault);
      return None;
    }

    /**
     * `restoreMovedFile`: links the moved file back unless the target name is taken, then drops the moved
     * name. The caller clears `moved` when it succeeds in the `try` block.
     */
    method RestoreMovedFile() returns (error: Option<Errno>)
      requires Valid() && machine.moved && !machine.cleanupFailed
      requires (machine.pc == Restoring && !machine.failed) || (machine.pc == Recovering && machine.failed)
      modifies this`fs, this`calls, this`machine, this`run
      ensures Valid() && error != Some(Absent)
      ensures old(machine.pc) == Restoring ==>
                && machine.moved == error.Some? && machine.pc == (if error.Some? then Recovering else Unpinning)
                && machine.failed == error.Some? && !machine.cleanupFailed
      ensures old(machine.pc) == Recovering ==>
                machine.pc == Unpinning && machine.failed && machine.cleanupFailed == error.Some?
    {
      hide Safe, Behaves, PinStep, ReadStep, RenameStep, DecideStep;
      var fault := Await();
      SettlingSafe(terms, machine);
      if fault {
        Called(fault);
        return Some(Refused);
      }
      if fs.target.Some? {
        Called(fault);
        return Some(Exists);
      }
      fs := fs.(target := fs.moved);
      Called(fault);
      error := DropMovedName();
    }

    /** The second half of `restoreMovedFile`. */
    method DropMovedName() returns (error: Option<Errno>)
      requires Valid() && machine.moved && !machine.cleanupFailed
      requires (machine.pc == Releasing && !machine.failed) || (machine.pc == RecoverReleasing && machine.failed)
      modifies this`fs, this`calls, this`machine, this`run
      ensures Valid() && error != Some(Absent)
      ensures old(machine.pc) == Releasing ==>
                && machine.moved == error.Some? && machine.pc == (if error.Some? then Recovering else Unpinning)
                && machine.failed == error.Some? && !machine.cleanupFailed
      ensures old(machine.pc) == RecoverReleasing ==>
                machine.pc == Unpinning && machine.failed && machine.cleanupFailed == error.Some?
    {
      hide Safe, Behaves, PinStep, ReadStep, RenameStep, DecideStep;
      var fault := Await();
      SettlingSafe(terms, machine);
      if fault {
        Called(fault);
        return Some(Refused);
      }
      fs := fs.(moved := None);
      Called(fault);
      return None;
    }

    /**
     * The whole function. Its calls form a run of the protocol that ends with the outcome, so everything
     * proved of runs holds of it; in particular what `Removed` promises.
     */
    method RemoveFileIfMatching() returns (outcome: Outcome)
      requires Valid() && machine.pc == Linking && moved == machine.moved && !machine.failed && !machine.cleanupFailed
      modifies this
      ensures Valid() && machine.pc == Finished(outcome)
      ensures outcome == Removed ==>
                machine.taken == Some(machine.looked) && machine.reread == machine.inspected && terms.accepts(machine.inspected)
      ensures outcome != Thrown ==> fs.pinned == None && fs.moved == None
    {
      hide Safe, Behaves, ReadStep, RenameStep, DecideStep, RestoreStep, FinallyStep;
      var fault := Await();
      InspectingSafe(terms, machine);
      if fault || fs.target == None {
        Called(fault);
        NothingLeftBehindNow();
        return if fault then Thrown else Missing;
      }
      fs := fs.(pinned := fs.target);
      Called(fault);
      var accepted, error := InspectPinned();
      if accepted {
        error := TakeAside();
      }
      var failed := error.Some? && error != Some(Absent);
      outcome := CleanUp(failed);
      NothingLeftBehindNow();
    }

    /** The `finally` block and what is thrown or returned after it. */
    method CleanUp(failed: bool) returns (outcome: Outcome)
      requires Valid() && moved == machine.moved && machine.pc == (if moved then Recovering else Unpinning)
      requires machine.failed == failed && !machine.cleanupFailed
      modifies this
      ensures Valid() && machine.pc == Finished(outcome)
    {
      hide Safe, Behaves, PinStep, ReadStep, RenameStep, DecideStep, RestoreStep;
      var cleanupFailed := false;
      if moved {
        RecoveringFailed(terms, run);
        var error := RestoreMovedFile();
        cleanupFailed := error.Some?;
      }
      var fault := Await();
      SettlingSafe(terms, machine);
      if fault {
        cleanupFailed := true;
      } else {
        fs := fs.(pinned := None);
      }
      Called(fault);
      return if cleanupFailed || failed then Thrown else if removed then Removed else Changed;
    }

    lemma SettlingNow()
      requires Valid() && machine.pc == Restoring
      ensures machine.moved
    {
      RunKeepsSafe(terms, run, |run.actions|);
    }

    /** The consequences of the run so far. */
    lemma NothingLeftBehindNow()
      requires Valid()
      ensures machine.pc == Finished(Removed) ==>
                machine.taken == Some(machine.looked) && machine.reread == machine.inspected && terms.accepts(machine.inspected)
      ensures machine.pc.Finished? && machine.pc.outcome != Thrown ==> fs.pinned == None && fs.moved == None
    {
      if machine.pc == Finished(Removed) {
        RemovedIsInspected(terms, run, |run.actions|);
      }
      if machine.pc.Finished? && machine.pc.outcome != Thrown {
        NothingLeftBehind(terms, run, |run.actions|);
      }
    }
  }

  lemma BehavesMeans(t: Terms, x: Execution)
    requires Behaves(t, x)
    ensures |x.states| == |x.actions| + 1
  {
  }

  lemma InspectingSafe(t: Terms, r: Removal)
    requires Safe(t, r)
    ensures Runs(r) && (Inspects(r.pc) ==> !r.moved && !r.removed)
  {
  }

  lemma SettlingSafe(t: Terms, r: Removal)
    requires Safe(t, r)
    ensures Runs(r) && (r.pc.Unlinking? || r.pc.Restoring? || r.pc.Releasing? || r.pc.Recovering? || r.pc.RecoverReleasing? ==> r.moved && r.fs.moved.Some?)
  {
  }

  /** The `finally` block has a file to restore only after an error. */
  lemma RecoveringFailed(t: Terms, x: Execution)
    requires Behaves(t, x) && x.states[|x.actions|].pc == Recovering
    ensures x.states[|x.actions|].failed
  {
    RunKeepsSafe(t, x, |x.actions|);
  }
}
