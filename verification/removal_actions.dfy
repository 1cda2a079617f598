/** The removal protocol in terms of its calls on the file system, whatever it notes down in between. */
module RemovalActions {
  import opened Wrappers
  import opened Bytes
  import opened FileRemoval

  /** The last call of the protocol before state `i`; what the other process did since changed the files only. */
  lemma {:induction false} LastCall(t: Terms, x: Execution, i: nat) returns (j: nat)
    requires Behaves(t, x) && i < |x.states| && !x.states[i].pc.Linking?
    ensures j < i && x.actions[j].Op? && x.states[i] == x.states[j + 1].(fs := x.states[i].fs)
    ensures forall k | j < k < i :: x.actions[k].Env?
    ensures x.states[j + 1] == Act(t, x.states[j], x.actions[j]) && Safe(t, x.states[j]) && Runs(x.states[j])
    decreases i
  {
    hide Safe, Runs, Act;
    if i > 0 {
      assert StepsTo(t, x, i - 1);
      RunKeepsSafe(t, x, i - 1);
      if x.actions[i - 1].Op? {
        j := i - 1;
        SafeRuns(t, x.states[j]);
      } else {
        MeddlesOnly(t, x.states[i - 1], x.actions[i - 1].meddle);
        j := LastCall(t, x, i - 1);
      }
    } else {
      assert false;
    }
  }

  lemma MeddlesOnly(t: Terms, r: Removal, m: Meddle)
    ensures Act(t, r, Env(m)) == r.(fs := Act(t, r, Env(m)).fs)
  {
  }

  lemma SafeRuns(t: Terms, r: Removal)
    requires Safe(t, r)
    ensures Runs(r)
  {
  }

  /** The inode that one of the names stands for. */
  ghost predicate Names(fs: Fs, name: Option<nat>, id: nat) {
    name.Some? && name.value in fs.inodes && fs.inodes[name.value].id == id
  }

  /** Call `a` reads these bytes from the pinned file, a regular one. */
  ghost predicate ReadsPinned(x: Execution, a: nat, id: nat, bytes: seq<byte>)
    requires |x.states| == |x.actions| + 1
  {
    && a < |x.actions| && x.actions[a] == Op(false) && Names(x.states[a].fs, x.states[a].fs.pinned, id)
    && x.states[a].fs.inodes[x.states[a].fs.pinned.value].regular && x.states[a].fs.inodes[x.states[a].fs.pinned.value].bytes == bytes
  }

  /** Call `b` renames the file under the target name aside. */
  ghost predicate MovesAside(x: Execution, b: nat, id: nat)
    requires |x.states| == |x.actions| + 1
  {
    && b < |x.actions| && x.actions[b] == Op(false) && Names(x.states[b].fs, x.states[b].fs.target, id)
    && x.states[b].fs.moved == None
    && x.states[b + 1].fs == x.states[b].fs.(moved := x.states[b].fs.target, target := None)
  }

  /** Call `c` reads the file that was moved aside again. */
  ghost predicate ReadsMoved(x: Execution, c: nat, id: nat, bytes: seq<byte>)
    requires |x.states| == |x.actions| + 1
  {
    && c < |x.actions| && x.actions[c] == Op(false) && Names(x.states[c].fs, x.states[c].fs.moved, id)
    && x.states[c].fs.inodes[x.states[c].fs.moved.value].bytes == bytes
  }

  /** Call `u` drops the moved name. */
  ghost predicate DropsMoved(x: Execution, u: nat, id: nat)
    requires |x.states| == |x.actions| + 1
  {
    && u < |x.actions| && x.actions[u] == Op(false) && Names(x.states[u].fs, x.states[u].fs.moved, id)
    && x.states[u + 1].fs == x.states[u].fs.(moved := None)
  }

  /** Call `j` gives the free target name to the file that was moved aside. */
  ghost predicate LinksMovedBack(x: Execution, j: nat, id: nat)
    requires |x.states| == |x.actions| + 1
  {
    && j < |x.actions| && x.actions[j] == Op(false) && Names(x.states[j].fs, x.states[j].fs.moved, id)
    && x.states[j].fs.target == None && x.states[j + 1].fs == x.states[j].fs.(target := x.states[j].fs.moved)
  }

  /** The read, the rename and the second read before a removal. */
  ghost predicate Checked(t: Terms, x: Execution, a: nat, b: nat, c: nat, id: nat, bytes: seq<byte>)
    requires |x.states| == |x.actions| + 1
  {
    a < b < c && ReadsPinned(x, a, id, bytes) && t.accepts(bytes) && MovesAside(x, b, id) && ReadsMoved(x, c, id, bytes)
  }

  // ------------------------------------------------------------ going back

  lemma BeforeValidating(t: Terms, x: Execution, i: nat) returns (a: nat)
    requires Behaves(t, x) && i < |x.states| && x.states[i].pc == Validating
    ensures a < i && ReadsPinned(x, a, x.states[i].looked, x.states[i].inspected)
  {
    a := LastCall(t, x, i);
  }

  lemma BeforeRenaming(t: Terms, x: Execution, i: nat) returns (a: nat)
    requires Behaves(t, x) && i < |x.states| && x.states[i].pc == Renaming
    ensures a < i && ReadsPinned(x, a, x.states[i].looked, x.states[i].inspected) && t.accepts(x.states[i].inspected)
  {
    var j := LastCall(t, x, i);
    a := BeforeValidating(t, x, j);
  }

  lemma BeforeComparing(t: Terms, x: Execution, i: nat) returns (a: nat, b: nat, id: nat)
    requires Behaves(t, x) && i < |x.states| && x.states[i].pc == Comparing
    ensures a < b < i && ReadsPinned(x, a, x.states[i].looked, x.states[i].inspected) && t.accepts(x.states[i].inspected)
    ensures MovesAside(x, b, id) && x.states[i].taken == Some(id)
  {
    b := LastCall(t, x, i);
    a := BeforeRenaming(t, x, b);
    id := x.states[b].fs.inodes[x.states[b].fs.target.value].id;
  }

  lemma BeforeRereading(t: Terms, x: Execution, i: nat) returns (a: nat, b: nat, id: nat)
    requires Behaves(t, x) && i < |x.states| && x.states[i].pc == Rereading
    ensures a < b < i && ReadsPinned(x, a, x.states[i].looked, x.states[i].inspected) && t.accepts(x.states[i].inspected)
    ensures MovesAside(x, b, id) && x.states[i].taken == Some(id)
  {
    var j := LastCall(t, x, i);
    a, b, id := BeforeComparing(t, x, j);
  }

  /** When the protocol is about to remove, it has checked the file it moved aside. */
  lemma BeforeUnlinking(t: Terms, x: Execution, i: nat) returns (a: nat, b: nat, c: nat)
    requires Behaves(t, x) && i < |x.states| && x.states[i].pc == Unlinking
    ensures c < i && Checked(t, x, a, b, c, x.states[i].looked, x.states[i].inspected)
    ensures Safe(t, x.states[i])
  {
    c := LastCall(t, x, i);
    var id: nat;
    a, b, id := BeforeRereading(t, x, c);
    RunKeepsSafe(t, x, i);
  }

  lemma EarlyStepsGoOn(t: Terms, r: Removal, fault: bool)
    requires Runs(r) && (r.pc.Linking? || r.pc.Inspecting? || r.pc.Opening? || r.pc.Measuring? || r.pc.Reading? || r.pc.Validating?)
    ensures Act(t, r, Op(fault)).pc != Finished(Removed)
  {
    hide RenameStep, DecideStep, RestoreStep, FinallyStep, WellFormed;
  }

  lemma LateStepsGoOn(t: Terms, r: Removal, fault: bool)
    requires Runs(r) && (r.pc.Renaming? || r.pc.Comparing? || r.pc.Rereading? || r.pc.Unlinking? || r.pc.Restoring? || r.pc.Releasing?
                         || r.pc.Recovering? || r.pc.RecoverReleasing?)
    ensures Act(t, r, Op(fault)).pc != Finished(Removed)
  {
    hide PinStep, ReadStep, WellFormed;
  }

  /** Only the last step before the end makes the answer, and only a removal makes it a true one. */
  lemma LastIsUnpinning(t: Terms, r: Removal, fault: bool)
    requires Runs(r) && Act(t, r, Op(fault)).pc == Finished(Removed) && !r.pc.Finished?
    ensures r.pc == Unpinning && r.removed
  {
    if r.pc.Unpinning? {
      hide PinStep, ReadStep, RenameStep, DecideStep, RestoreStep, WellFormed;
    } else {
      hide Act;
      if r.pc.Linking? || r.pc.Inspecting? || r.pc.Opening? || r.pc.Measuring? || r.pc.Reading? || r.pc.Validating? {
        EarlyStepsGoOn(t, r, fault);
      } else {
        LateStepsGoOn(t, r, fault);
      }
    }
  }

  lemma {:induction false} BeforeFinished(t: Terms, x: Execution, i: nat) returns (j: nat)
    requires Behaves(t, x) && i < |x.states| && x.states[i].pc == Finished(Removed)
    ensures j < i && x.states[j].pc == Unpinning && x.states[j].removed
    decreases i
  {
    hide Act, Safe, Runs;
    j := LastCall(t, x, i);
    if x.states[j].pc.Finished? {
      FinishedStays(t, x.states[j], x.actions[j]);
      j := BeforeFinished(t, x, j);
    } else {
      LastIsUnpinning(t, x.states[j], x.actions[j].fault);
    }
  }

  lemma FinishedStays(t: Terms, r: Removal, a: Action)
    requires r.pc.Finished?
    ensures Act(t, r, a).pc == r.pc
  {
  }

  lemma RemovedByUnlinking(t: Terms, r: Removal, a: Action)
    requires Safe(t, r) && Runs(r) && a.Op? && Act(t, r, a).pc == Unpinning && Act(t, r, a).removed
    ensures r.pc == Unlinking && a == Op(false) && r.fs.moved.Some? && Act(t, r, a).fs == r.fs.(moved := None)
  {
  }

  lemma BeforeUnpinning(t: Terms, x: Execution, i: nat) returns (u: nat)
    requires Behaves(t, x) && i < |x.states| && x.states[i].pc == Unpinning && x.states[i].removed
    ensures u < i && x.states[u].pc == Unlinking && DropsMoved(x, u, x.states[u].looked)
  {
    u := LastCall(t, x, i);
    RemovedByUnlinking(t, x.states[u], x.actions[u]);
    hide Act, Runs;
  }

  /** A file linked back by the protocol is the one it moved aside. */
  lemma BeforeReleasing(t: Terms, x: Execution, i: nat) returns (j: nat)
    requires Behaves(t, x) && i < |x.states| && (x.states[i].pc == Releasing || x.states[i].pc == RecoverReleasing)
    ensures Safe(t, x.states[i]) && x.states[i].taken.Some? && j < i && LinksMovedBack(x, j, x.states[i].taken.value)
  {
    j := LastCall(t, x, i);
    RunKeepsSafe(t, x, i);
  }

  // ------------------------------------------------------------ main results

  /**
   * A true answer, in terms of the calls made. The protocol read the bytes of a regular file through its
   * private link and the caller accepted them; then it moved that same file aside from the target name, read the
   * same bytes from it again, and dropped its name, in this order.
   */
  lemma RemovedOverActions(t: Terms, x: Execution, i: nat) returns (a: nat, b: nat, c: nat, u: nat, id: nat, bytes: seq<byte>)
    requires Behaves(t, x) && i < |x.states| && x.states[i].pc == Finished(Removed)
    ensures c < u < i && Checked(t, x, a, b, c, id, bytes) && DropsMoved(x, u, id)
  {
    hide Act, Safe, Runs;
    var last := BeforeFinished(t, x, i);
    u := BeforeUnpinning(t, x, last);
    a, b, c := BeforeUnlinking(t, x, u);
    id, bytes := x.states[u].looked, x.states[u].inspected;
  }

  /**
   * Whatever happens, a call drops the moved name only after the same file was given the target name back, or
   * after it was checked to be the inspected file with the inspected and accepted bytes.
   */
  lemma DropsJustified(t: Terms, x: Execution, u: nat, id: nat)
    requires Behaves(t, x) && u < |x.actions| && DropsMoved(x, u, id)
    ensures (exists j: nat :: j < u && LinksMovedBack(x, j, id)) || (exists a: nat, b: nat, c: nat, bytes :: c < u && Checked(t, x, a, b, c, id, bytes))
  {
    RunKeepsSafe(t, x, u);
    assert StepsTo(t, x, u);
    if x.states[u].pc == Unlinking {
      var a, b, c := BeforeUnlinking(t, x, u);
      assert Checked(t, x, a, b, c, id, x.states[u].inspected);
    } else {
      var j := BeforeReleasing(t, x, u);
      assert LinksMovedBack(x, j, id);
    }
  }

  /** How one call may change the names; the files themselves it never touches. */
  ghost predicate CallChanges(x: Execution, i: nat)
    requires |x.states| == |x.actions| + 1 && i < |x.actions|
  {
    var before, after := x.states[i].fs, x.states[i + 1].fs;
    || after == before
    || (before.pinned == None && before.target.Some? && after == before.(pinned := before.target))
    || after == before.(pinned := None)
    || exists id :: MovesAside(x, i, id) || LinksMovedBack(x, i, id) || DropsMoved(x, i, id)
  }

  /** No call of the protocol does anything to the file system but these five things. */
  lemma CallsChangeNamesOnly(t: Terms, x: Execution, i: nat)
    requires Behaves(t, x) && i < |x.actions| && x.actions[i].Op?
    ensures CallChanges(x, i)
  {
    RunKeepsSafe(t, x, i);
    SafeRuns(t, x.states[i]);
    assert StepsTo(t, x, i);
    var fs, pc := x.states[i].fs, x.states[i].pc;
    if x.actions[i] == Op(false) {
      if pc == Renaming && fs.target.Some? {
        assert MovesAside(x, i, fs.inodes[fs.target.value].id);
      } else if (pc == Restoring || pc == Recovering) && fs.target == None {
        assert LinksMovedBack(x, i, fs.inodes[fs.moved.value].id);
      } else if pc == Unlinking || pc == Releasing || pc == RecoverReleasing {
        assert DropsMoved(x, i, fs.inodes[fs.moved.value].id);
      }
    }
  }

  // ---------------------------------------------------------------- outcomes

  /**
   * What makes a call fail: the system refuses it, the pinned file is too large or its contents are not
   * accepted, or the target name is taken when the moved file is to be linked back. The caller's judgement
   * is no system call.
   */
  ghost predicate Trouble(t: Terms, r: Removal, a: Action) {
    a.Op? &&
    match r.pc
    case Finished(_) => false
    case Validating => !t.accepts(r.inspected)
    case Measuring =>
      a.fault || (t.maximum.Some? && r.fs.pinned.Some? && r.fs.pinned.value in r.fs.inodes
                  && |r.fs.inodes[r.fs.pinned.value].bytes| > t.maximum.value)
    case Restoring => a.fault || r.fs.target.Some?
    case Recovering => a.fault || r.fs.target.Some?
    case _ => a.fault
  }

  /** Something has failed so far. */
  predicate Bad(r: Removal) {
    if r.pc.Finished? then r.pc.outcome == Thrown else r.failed || r.cleanupFailed
  }

  lemma PinTrouble(t: Terms, r: Removal, a: Action)
    requires Safe(t, r) && Runs(r) && a.Op? && (r.pc.Linking? || r.pc.Inspecting? || r.pc.Opening?)
    requires r.pc.Linking? ==> !Bad(r)
    ensures !Act(t, r, a).pc.Linking?
    ensures Bad(Act(t, r, a)) <==> Bad(r) || Trouble(t, r, a)
  {
    hide ReadStep, RenameStep, DecideStep, RestoreStep, FinallyStep;
  }

  lemma ReadTrouble(t: Terms, r: Removal, a: Action)
    requires Safe(t, r) && Runs(r) && a.Op? && (r.pc.Measuring? || r.pc.Reading? || r.pc.Validating?)
    ensures !Act(t, r, a).pc.Linking?
    ensures Bad(Act(t, r, a)) <==> Bad(r) || Trouble(t, r, a)
  {
    hide PinStep, RenameStep, DecideStep, RestoreStep, FinallyStep;
  }

  lemma MoveTrouble(t: Terms, r: Removal, a: Action)
    requires Safe(t, r) && Runs(r) && a.Op? && (r.pc.Renaming? || r.pc.Comparing? || r.pc.Rereading? || r.pc.Unlinking?)
    ensures !Act(t, r, a).pc.Linking?
    ensures Bad(Act(t, r, a)) <==> Bad(r) || Trouble(t, r, a)
  {
    hide PinStep, ReadStep, RestoreStep, FinallyStep;
  }

  lemma EndTrouble(t: Terms, r: Removal, a: Action)
    requires Safe(t, r) && Runs(r) && a.Op?
    requires r.pc.Restoring? || r.pc.Releasing? || r.pc.Recovering? || r.pc.RecoverReleasing? || r.pc.Unpinning? || r.pc.Finished?
    ensures !Act(t, r, a).pc.Linking?
    ensures Bad(Act(t, r, a)) <==> Bad(r) || Trouble(t, r, a)
  {
    hide PinStep, ReadStep, RenameStep, DecideStep;
  }

  lemma StepTrouble(t: Terms, r: Removal, a: Action)
    requires Safe(t, r) && (r.pc.Linking? ==> !Bad(r))
    ensures Act(t, r, a).pc.Linking? ==> r.pc.Linking? && a.Env?
    ensures Bad(Act(t, r, a)) <==> Bad(r) || Trouble(t, r, a)
  {
    SafeRuns(t, r);
    if a.Env? {
      MeddlesOnly(t, r, a.meddle);
    } else {
      hide Act, Safe, Runs, Bad, Trouble;
      match r.pc
      case Linking => PinTrouble(t, r, a);
      case Inspecting => PinTrouble(t, r, a);
      case Opening => PinTrouble(t, r, a);
      case Measuring => ReadTrouble(t, r, a);
      case Reading => ReadTrouble(t, r, a);
      case Validating => ReadTrouble(t, r, a);
      case Renaming => MoveTrouble(t, r, a);
      case Comparing => MoveTrouble(t, r, a);
      case Rereading => MoveTrouble(t, r, a);
      case Unlinking => MoveTrouble(t, r, a);
      case _ => EndTrouble(t, r, a);
    }
  }

  lemma NoTrouble(t: Terms, r: Removal, a: Action)
    requires a.Env?
    ensures !Trouble(t, r, a)
  {
  }

  /** A run has failed so far exactly when one of its calls had trouble; at the end, exactly then it throws. */
  lemma {:induction false} ThrowsExactly(t: Terms, x: Execution, i: nat)
    requires Behaves(t, x) && i < |x.states|
    ensures Bad(x.states[i]) <==> exists k: nat :: k < i && Trouble(t, x.states[k], x.actions[k])
    ensures x.states[i].pc.Linking? ==> !Bad(x.states[i])
    ensures x.states[i].pc.Finished? ==> (Bad(x.states[i]) <==> x.states[i].pc == Finished(Thrown))
    decreases i
  {
    hide Act, Safe, Trouble;
    if i == 0 {
      assert x.states[0] == Begin(x.states[0].fs);
    } else {
      ThrowsExactly(t, x, i - 1);
      RunKeepsSafe(t, x, i - 1);
      assert StepsTo(t, x, i - 1);
      StepTrouble(t, x.states[i - 1], x.actions[i - 1]);
      if x.actions[i - 1].Env? {
        NoTrouble(t, x.states[i - 1], x.actions[i - 1]);
      }
      if Trouble(t, x.states[i - 1], x.actions[i - 1]) {
        assert i - 1 < i && Trouble(t, x.states[i - 1], x.actions[i - 1]);
      }
    }
  }

  /** Left alone, a file moved aside that is not to be removed gets its name back, and both private names go. */
  lemma RestoresAlone(t: Terms, r: Removal)
    requires Safe(t, r) && (r.pc == Restoring || r.pc == Recovering) && r.fs.target == None
    ensures var u := Act(t, Act(t, Act(t, r, Op(false)), Op(false)), Op(false));
            && u.fs == r.fs.(target := r.fs.moved, moved := None, pinned := None)
            && u.pc == Finished(if Bad(r) then Thrown else Changed)
  {
    SafeRuns(t, r);
    hide PinStep, ReadStep, RenameStep, DecideStep;
    var r1 := Act(t, r, Op(false));
    assert r1 == r.(fs := r.fs.(target := r.fs.moved), restored := true, pc := if r.pc == Restoring then Releasing else RecoverReleasing);
    assert Runs(r1);
    var r2 := Act(t, r1, Op(false));
    assert r2.fs == r.fs.(target := r.fs.moved, moved := None) && r2.pc == Unpinning;
    assert Runs(r2);
  }

  /** Left alone, a missing file is reported as missing after one call, and anything but a regular file is left as it was. */
  lemma OthersAlone(t: Terms, fs: Fs)
    requires Ready(fs)
    ensures fs.target == None ==> Act(t, Begin(fs), Op(false)).pc == Finished(Missing) && Act(t, Begin(fs), Op(false)).fs == fs
    ensures fs.target.Some? && !fs.inodes[fs.target.value].regular ==>
              var u := Act(t, Act(t, Act(t, Begin(fs), Op(false)), Op(false)), Op(false));
              u.pc == Finished(Changed) && u.fs == fs
  {
    if fs.target.Some? && !fs.inodes[fs.target.value].regular {
      hide ReadStep, RenameStep, DecideStep, RestoreStep;
      var r1 := Act(t, Begin(fs), Op(false));
      assert r1 == Begin(fs).(fs := fs.(pinned := fs.target), pc := Inspecting);
      var r2 := Act(t, r1, Op(false));
      assert r2.pc == Unpinning && r2.fs == r1.fs && Runs(r2);
    }
  }
}
