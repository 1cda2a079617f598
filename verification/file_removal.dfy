/**
 * Removing a file that another process may relink or rewrite at any moment. The protocol pins the inode
 * with a private hard link, inspects it, renames the target aside, checks what it renamed, and unlinks it
 * or links it back. Every file-system call is one step; between two steps the other process may do anything.
 */
module FileRemoval {
  import opened Wrappers
  import opened Bytes

  /** A file. Inode numbers are reused once a file has no name left; `id` tells files apart for ever. */
  datatype Inode = Inode(id: nat, regular: bool, bytes: seq<byte>)

  /** The three names of the protocol, the inodes by number, and the next file identity. */
  datatype Fs = Fs(target: Option<nat>, pinned: Option<nat>, moved: Option<nat>, inodes: map<nat, Inode>, next: nat)

  predicate Linked(fs: Fs, name: Option<nat>) {
    name.Some? ==> name.value in fs.inodes && fs.inodes[name.value].id < fs.next
  }

  predicate WellFormed(fs: Fs) {
    Linked(fs, fs.target) && Linked(fs, fs.pinned) && Linked(fs, fs.moved)
  }

  /**
   * What the other process does: it gives the target name to any file, removes it, rewrites any file, or
   * creates a file under an inode number that none of the three names keeps alive. It cannot guess the
   * private names.
   */
  datatype Meddle = Relink(ino: nat) | Remove | Rewrite(ino: nat, bytes: seq<byte>) | Make(ino: nat, regular: bool, bytes: seq<byte>)

  function Meddled(fs: Fs, m: Meddle): Fs {
    match m
    case Relink(i) => if i in fs.inodes && fs.inodes[i].id < fs.next then fs.(target := Some(i)) else fs
    case Remove => fs.(target := None)
    case Rewrite(i, bytes) => if i in fs.inodes then fs.(inodes := fs.inodes[i := fs.inodes[i].(bytes := bytes)]) else fs
    case Make(i, regular, bytes) =>
      if Some(i) in {fs.target, fs.pinned, fs.moved} then fs
      else fs.(inodes := fs.inodes[i := Inode(fs.next, regular, bytes)], next := fs.next + 1)
  }

  datatype Outcome = Removed | Changed | Missing | Thrown

  datatype Pc =
    | Linking | Inspecting | Opening | Measuring | Reading | Validating | Renaming | Comparing | Rereading | Unlinking
    | Restoring | Releasing | Recovering | RecoverReleasing | Unpinning | Finished(outcome: Outcome)

  predicate Inspects(pc: Pc) {
    pc.Linking? || pc.Inspecting? || pc.Opening? || pc.Measuring? || pc.Reading? || pc.Validating? || pc.Renaming?
  }

  /** What the caller passes: which contents it accepts, and how large the file may be. */
  datatype Terms = Terms(accepts: seq<byte> -> bool, maximum: Option<nat>)

  /**
   * The protocol between two calls. `looked` is the identity of the inspected file; `taken` the identity of
   * the file the rename moved aside, `reread` what was read from it again, and `restored` and `deleted`
   * whether it was linked back or its moved name unlinked as a removal.
   */
  datatype Removal = Removal(
    fs: Fs, pc: Pc, ino: nat, handle: nat, inspected: seq<byte>, moved: bool, removed: bool, failed: bool, cleanupFailed: bool,
    looked: nat, taken: Option<nat>, reread: seq<byte>, restored: bool, deleted: bool)

  function Begin(fs: Fs): Removal {
    Removal(fs, Linking, 0, 0, [], false, false, false, false, 0, None, [], false, false)
  }

  /** On to the `finally` block. */
  function Cleanup(r: Removal): Removal {
    r.(pc := if r.moved then Recovering else Unpinning)
  }

  function Fail(r: Removal): Removal {
    Cleanup(r.(failed := true))
  }

  function Conclude(r: Removal): Outcome {
    if r.cleanupFailed || r.failed then Thrown else if r.removed then Removed else Changed
  }

  /** The names a call needs are there; this holds in every run. */
  predicate Runs(r: Removal) {
    && WellFormed(r.fs)
    && (Inspects(r.pc) && r.pc != Linking ==> r.fs.pinned.Some?)
    && (r.pc == Measuring || r.pc == Reading ==> r.handle in r.fs.inodes)
    && (r.pc == Comparing || r.pc == Rereading ==> r.fs.moved.Some?)
  }

  /** The private link and a look at it; `fault` means that the system refuses the call for a reason of its own. */
  function PinStep(r: Removal, fault: bool): Removal
    requires (r.pc.Linking? || r.pc.Inspecting? || r.pc.Opening?) && Runs(r)
  {
    match r.pc
    case Linking =>
      if fault then r.(pc := Finished(Thrown))
      else if r.fs.target == None then r.(pc := Finished(Missing))
      else r.(fs := r.fs.(pinned := r.fs.target), pc := Inspecting)
    case Inspecting =>
      var ino := r.fs.pinned.value;
      var seen := r.(ino := ino, looked := r.fs.inodes[ino].id);
      if fault then Fail(r) else if r.fs.inodes[ino].regular then seen.(pc := Opening) else Cleanup(seen)
    case Opening => if fault then Fail(r) else r.(handle := r.fs.pinned.value, pc := Measuring)
  }

  /** The size, the contents, and the caller's judgement of them. */
  function ReadStep(t: Terms, r: Removal, fault: bool): Removal
    requires (r.pc.Measuring? || r.pc.Reading? || r.pc.Validating?) && Runs(r)
  {
    match r.pc
    case Measuring =>
      if fault || (t.maximum.Some? && |r.fs.inodes[r.handle].bytes| > t.maximum.value) then Fail(r) else r.(pc := Reading)
    case Reading =>
      var read := r.(inspected := r.fs.inodes[r.handle].bytes);
      if fault then Fail(r) else if r.fs.inodes[r.handle].regular && r.handle == r.ino then read.(pc := Validating) else Cleanup(read)
    case Validating => if t.accepts(r.inspected) then r.(pc := Renaming) else Fail(r)
  }

  /** The rename that takes whatever the target name stands for aside. */
  function RenameStep(r: Removal, fault: bool): Removal
    requires r.pc.Renaming? && Runs(r)
  {
    if fault then Fail(r)
    else if r.fs.target == None then Cleanup(r)
    else
      r.(fs := r.fs.(moved := r.fs.target, target := None), moved := true, pc := Comparing,
         taken := Some(r.fs.inodes[r.fs.target.value].id))
  }

  /** Whether the file taken is the inspected one, and its removal if so. */
  function DecideStep(r: Removal, fault: bool): Removal
    requires (r.pc.Comparing? || r.pc.Rereading? || r.pc.Unlinking?) && Runs(r)
  {
    if fault then Fail(r)
    else
      match r.pc
      case Comparing =>
        r.(pc := if r.fs.inodes[r.fs.moved.value].regular && r.fs.moved.value == r.ino then Rereading else Restoring)
      case Rereading =>
        var reread := r.fs.inodes[r.fs.moved.value].bytes;
        r.(reread := reread, pc := if reread == r.inspected then Unlinking else Restoring)
      case Unlinking => Cleanup(r.(fs := r.fs.(moved := None), moved := false, removed := true, deleted := true))
  }

  /** The first call of `restoreMovedFile`: the target name must be free again. */
  function LinkBack(fs: Fs, fault: bool): Option<Fs> {
    if fault || fs.target.Some? then None else Some(fs.(target := fs.moved))
  }

  /** `restoreMovedFile` within the `try` block. */
  function RestoreStep(r: Removal, fault: bool): Removal
    requires r.pc.Restoring? || r.pc.Releasing?
  {
    match r.pc
    case Restoring =>
      var linked := LinkBack(r.fs, fault);
      if linked == None then Fail(r) else r.(fs := linked.value, restored := true, pc := Releasing)
    case Releasing => if fault then Fail(r) else Cleanup(r.(fs := r.fs.(moved := None), moved := false))
  }

  /** The `finally` block: `restoreMovedFile` if a file is still aside, then the private link. */
  function FinallyStep(r: Removal, fault: bool): Removal
    requires r.pc.Recovering? || r.pc.RecoverReleasing? || r.pc.Unpinning?
  {
    match r.pc
    case Recovering =>
      var linked := LinkBack(r.fs, fault);
      if linked == None then r.(cleanupFailed := true, pc := Unpinning)
      else r.(fs := linked.value, restored := true, pc := RecoverReleasing)
    case RecoverReleasing =>
      if fault then r.(cleanupFailed := true, pc := Unpinning) else r.(fs := r.fs.(moved := None), pc := Unpinning)
    case Unpinning =>
      var unpinned := if fault then r.(cleanupFailed := true) else r.(fs := r.fs.(pinned := None));
      unpinned.(pc := Finished(Conclude(unpinned)))
  }

  // -------------------------------------------------------------- invariant

  /** Nothing has been moved aside. */
  ghost predicate Fresh(r: Removal) {
    r.taken == None && !r.moved && r.fs.moved == None && !r.restored && !r.deleted && !r.removed && !r.cleanupFailed
  }

  /** The private link pins the inspected file, so its inode number still stands for that file. */
  ghost predicate Held(r: Removal)
    requires WellFormed(r.fs)
  {
    r.fs.pinned == Some(r.ino) && r.fs.inodes[r.ino].id == r.looked
  }

  /** A file was moved aside and is under the moved name. */
  ghost predicate Aside(r: Removal)
    requires WellFormed(r.fs)
  {
    r.moved && r.fs.moved.Some? && r.taken == Some(r.fs.inodes[r.fs.moved.value].id) && !r.removed && !r.deleted && !r.cleanupFailed
  }

  /** A file moved aside was linked back, deleted for a good reason, or is still under the moved name. */
  ghost predicate Accounted(t: Terms, r: Removal)
    requires WellFormed(r.fs)
  {
    && (r.taken.Some? ==> r.restored || r.deleted || r.fs.moved.Some?)
    && (r.restored ==> r.taken.Some?)
    && (r.fs.moved.Some? ==> r.taken == Some(r.fs.inodes[r.fs.moved.value].id))
    && (r.deleted ==> r.taken == Some(r.looked) && r.reread == r.inspected && t.accepts(r.inspected))
    && (r.removed <==> r.deleted)
  }

  /** What holds before each call. */
  ghost predicate Safe(t: Terms, r: Removal) {
    WellFormed(r.fs) &&
    match r.pc
    case Linking => Fresh(r) && r.fs.pinned == None
    case Inspecting => Fresh(r) && r.fs.pinned.Some?
    case Opening => Fresh(r) && Held(r)
    case Measuring => Fresh(r) && Held(r) && r.handle == r.ino
    case Reading => Fresh(r) && Held(r) && r.handle == r.ino
    case Validating => Fresh(r) && Held(r)
    case Renaming => Fresh(r) && Held(r) && t.accepts(r.inspected)
    case Comparing => Aside(r) && Held(r) && t.accepts(r.inspected)
    case Rereading => Aside(r) && Held(r) && t.accepts(r.inspected) && r.fs.moved == Some(r.ino)
    case Unlinking => Aside(r) && Held(r) && t.accepts(r.inspected) && r.fs.moved == Some(r.ino) && r.reread == r.inspected
    case Restoring => Aside(r)
    case Releasing => Aside(r) && r.restored
    case Recovering => Aside(r) && r.failed
    case RecoverReleasing => Aside(r) && r.failed && r.restored
    case Unpinning => Accounted(t, r) && (r.failed || r.fs.moved == None)
    case Finished(outcome) =>
      Accounted(t, r) &&
      match outcome
      case Removed => r.removed && r.fs.moved == None && r.fs.pinned == None
      case Changed => !r.removed && r.fs.moved == None && r.fs.pinned == None
      case Missing => Fresh(r) && r.fs.pinned == None
      case Thrown => true
  }

  /** One action of a run: a call of the protocol, or something the other process does. */
  datatype Action = Op(fault: bool) | Env(meddle: Meddle)

  function Act(t: Terms, r: Removal, a: Action): Removal {
    match a
    case Env(m) => r.(fs := Meddled(r.fs, m))
    case Op(fault) =>
      if !Runs(r) then r
      else
        match r.pc
        case Linking => PinStep(r, fault)
        case Inspecting => PinStep(r, fault)
        case Opening => PinStep(r, fault)
        case Measuring => ReadStep(t, r, fault)
        case Reading => ReadStep(t, r, fault)
        case Validating => ReadStep(t, r, fault)
        case Renaming => RenameStep(r, fault)
        case Comparing => DecideStep(r, fault)
        case Rereading => DecideStep(r, fault)
        case Unlinking => DecideStep(r, fault)
        case Restoring => RestoreStep(r, fault)
        case Releasing => RestoreStep(r, fault)
        case Finished(_) => r
        case _ => FinallyStep(r, fault)
  }

  /** A run: any interleaving of protocol calls and meddling. `states[i]` is the protocol before action `i`. */
  datatype Execution = Execution(states: seq<Removal>, actions: seq<Action>)

  ghost predicate StepsTo(t: Terms, x: Execution, i: nat)
    requires i < |x.actions| && |x.states| == |x.actions| + 1
  {
    x.states[i + 1] == Act(t, x.states[i], x.actions[i])
  }

  /** A run on a file system in which the private names do not exist yet. */
  ghost predicate Behaves(t: Terms, x: Execution) {
    && |x.states| == |x.actions| + 1
    && Ready(x.states[0].fs) && x.states[0] == Begin(x.states[0].fs)
    && forall i: nat | i < |x.actions| :: StepsTo(t, x, i)
  }

  function Extend(t: Terms, x: Execution, a: Action): Execution
    requires x.states != []
  {
    Execution(x.states + [Act(t, x.states[|x.states| - 1], a)], x.actions + [a])
  }

  lemma ExtendBehaves(t: Terms, x: Execution, a: Action)
    requires Behaves(t, x)
    ensures Behaves(t, Extend(t, x, a))
  {
    hide Act;
    var y := Extend(t, x, a);
    forall i: nat | i < |y.actions| ensures StepsTo(t, y, i) {
      if i < |x.actions| {
        assert StepsTo(t, x, i);
      }
    }
  }

  /** Before the protocol starts its private names do not exist. */
  predicate Ready(fs: Fs) {
    WellFormed(fs) && fs.pinned == None && fs.moved == None
  }

  lemma MeddleKeepsSafe(t: Terms, r: Removal, m: Meddle)
    requires Safe(t, r)
    ensures Safe(t, Act(t, r, Env(m)))
  {
  }

  lemma PinKeepsSafe(t: Terms, r: Removal, fault: bool)
    requires Safe(t, r) && (r.pc.Linking? || r.pc.Inspecting? || r.pc.Opening?)
    ensures Runs(r) && Safe(t, PinStep(r, fault))
  {
  }

  lemma ReadKeepsSafe(t: Terms, r: Removal, fault: bool)
    requires Safe(t, r) && (r.pc.Measuring? || r.pc.Reading? || r.pc.Validating?)
    ensures Runs(r) && Safe(t, ReadStep(t, r, fault))
  {
  }

  lemma RenameKeepsSafe(t: Terms, r: Removal, fault: bool)
    requires Safe(t, r) && r.pc.Renaming?
    ensures Runs(r) && Safe(t, RenameStep(r, fault))
  {
  }

  lemma DecideKeepsSafe(t: Terms, r: Removal, fault: bool)
    requires Safe(t, r) && (r.pc.Comparing? || r.pc.Rereading? || r.pc.Unlinking?)
    ensures Runs(r) && Safe(t, DecideStep(r, fault))
  {
  }

  lemma RestoreKeepsSafe(t: Terms, r: Removal, fault: bool)
    requires Safe(t, r) && (r.pc.Restoring? || r.pc.Releasing?)
    ensures Runs(r) && Safe(t, RestoreStep(r, fault))
  {
  }

  lemma FinallyKeepsSafe(t: Terms, r: Removal, fault: bool)
    requires Safe(t, r) && (r.pc.Recovering? || r.pc.RecoverReleasing? || r.pc.Unpinning?)
    ensures Runs(r) && Safe(t, FinallyStep(r, fault))
  {
  }

  lemma OpKeepsSafe(t: Terms, r: Removal, fault: bool)
    requires Safe(t, r)
    ensures Safe(t, Act(t, r, Op(fault)))
  {
    hide Safe, Runs, PinStep, ReadStep, RenameStep, DecideStep, RestoreStep, FinallyStep;
    if r.pc.Linking? || r.pc.Inspecting? || r.pc.Opening? {
      PinKeepsSafe(t, r, fault);
    } else if r.pc.Measuring? || r.pc.Reading? || r.pc.Validating? {
      ReadKeepsSafe(t, r, fault);
    } else if r.pc.Renaming? {
      RenameKeepsSafe(t, r, fault);
    } else if r.pc.Comparing? || r.pc.Rereading? || r.pc.Unlinking? {
      DecideKeepsSafe(t, r, fault);
    } else if r.pc.Restoring? || r.pc.Releasing? {
      RestoreKeepsSafe(t, r, fault);
    } else if !r.pc.Finished? {
      FinallyKeepsSafe(t, r, fault);
    }
  }

  lemma BeginsSafe(t: Terms, fs: Fs)
    requires Ready(fs)
    ensures Safe(t, Begin(fs))
  {
  }

  lemma SafeRuns(t: Terms, r: Removal)
    requires Safe(t, r)
    ensures Runs(r)
  {
  }

  lemma {:induction false} RunKeepsSafe(t: Terms, x: Execution, i: nat)
    requires Behaves(t, x) && i < |x.states|
    ensures Safe(t, x.states[i]) && Runs(x.states[i])
  {
    hide Safe, Runs, Act;
    if i == 0 {
      BeginsSafe(t, x.states[0].fs);
    } else {
      RunKeepsSafe(t, x, i - 1);
      assert StepsTo(t, x, i - 1);
      match x.actions[i - 1]
      case Env(m) => MeddleKeepsSafe(t, x.states[i - 1], m);
      case Op(fault) => OpKeepsSafe(t, x.states[i - 1], fault);
    }
    SafeRuns(t, x.states[i]);
  }

  // ------------------------------------------------------------ main results

  /**
   * `removed` is returned only for the very file that was inspected, moved aside and read again with the
   * same contents, which the caller accepted, whatever the other process did in between.
   */
  lemma RemovedIsInspected(t: Terms, x: Execution, i: nat)
    requires Behaves(t, x) && i < |x.states| && x.states[i].pc == Finished(Removed)
    ensures var r := x.states[i];
            && r.taken == Some(r.looked) && r.reread == r.inspected && t.accepts(r.inspected)
            && r.fs.moved == None && r.fs.pinned == None
  {
    RunKeepsSafe(t, x, i);
  }

  /** The target name stands for this file. */
  ghost predicate AtTarget(fs: Fs, id: Option<nat>) {
    id.Some? && fs.target.Some? && fs.target.value in fs.inodes && fs.inodes[fs.target.value].id == id.value
  }

  /** Action `j` links the file that had been moved aside back: only then does the target name stand for it again. */
  ghost predicate GivenBack(x: Execution, j: nat, id: Option<nat>)
    requires j < |x.actions| && |x.states| == |x.actions| + 1
  {
    && x.actions[j].Op? && x.states[j].fs.target == None && x.states[j].taken == id
    && !x.states[j].restored && x.states[j + 1].restored && AtTarget(x.states[j + 1].fs, id)
  }

  /** The other process neither relinks nor removes the target name after action `j` and before action `i`. */
  ghost predicate TargetLeftAlone(x: Execution, j: nat, i: nat)
    requires i <= |x.actions|
  {
    forall k: nat | j < k < i :: x.actions[k].Env? ==> !x.actions[k].meddle.Relink? && !x.actions[k].meddle.Remove?
  }

  /** A step that links back gives the free target name to the very file that had been moved aside. */
  lemma LinksBack(t: Terms, r: Removal, a: Action)
    requires Safe(t, r) && !r.restored && Act(t, r, a).restored
    ensures a.Op? && r.fs.target == None && AtTarget(Act(t, r, a).fs, r.taken) && Act(t, r, a).taken == r.taken
  {
  }

  /** Once a file was linked back, it stays the one the protocol accounts for. */
  lemma TakenStays(t: Terms, r: Removal, a: Action)
    requires Safe(t, r) && r.restored
    ensures r.taken.Some? && Act(t, r, a).taken == r.taken && Act(t, r, a).restored
  {
  }

  /** After linking back the protocol itself never touches the target name again, and nothing else renames the file. */
  lemma TargetStays(t: Terms, r: Removal, a: Action, id: Option<nat>)
    requires Safe(t, r) && r.restored && AtTarget(r.fs, id)
    requires a.Env? ==> !a.meddle.Relink? && !a.meddle.Remove?
    ensures AtTarget(Act(t, r, a).fs, id)
  {
  }

  /** A file counts as restored only through the one call that gives it the target name back. */
  lemma {:induction false} RestoredIsGivenBack(t: Terms, x: Execution, i: nat) returns (j: nat)
    requires Behaves(t, x) && i < |x.states| && x.states[i].restored
    ensures j < i && GivenBack(x, j, x.states[i].taken)
  {
    assert i > 0;
    hide Act, Safe, Runs, AtTarget, Begin, Ready;
    RunKeepsSafe(t, x, i - 1);
    assert StepsTo(t, x, i - 1);
    var before := x.states[i - 1];
    if before.restored {
      j := RestoredIsGivenBack(t, x, i - 1);
      TakenStays(t, before, x.actions[i - 1]);
    } else {
      j := i - 1;
      LinksBack(t, before, x.actions[j]);
    }
  }

  /** The file given back is under the target name for as long as the other process leaves that name alone. */
  lemma {:induction false} GivenBackStays(t: Terms, x: Execution, j: nat, i: nat, id: Option<nat>)
    requires Behaves(t, x) && j < i < |x.states| && GivenBack(x, j, id) && TargetLeftAlone(x, j, i)
    ensures x.states[i].restored && AtTarget(x.states[i].fs, id)
    decreases i
  {
    hide Act, Safe, Runs, AtTarget, Begin, Ready;
    if j + 1 < i {
      GivenBackStays(t, x, j, i - 1, id);
      RunKeepsSafe(t, x, i - 1);
      assert StepsTo(t, x, i - 1);
      TakenStays(t, x.states[i - 1], x.actions[i - 1]);
      TargetStays(t, x.states[i - 1], x.actions[i - 1], id);
    }
  }

  /** Some call after the move gave the file the target name back, and it kept it unless the other process took it. */
  ghost predicate Returned(x: Execution, i: nat)
    requires i < |x.states| && |x.states| == |x.actions| + 1
  {
    exists j: nat :: j < i && GivenBack(x, j, x.states[i].taken)
                     && (TargetLeftAlone(x, j, i) ==> AtTarget(x.states[i].fs, x.states[i].taken))
  }

  /** Every file that counts as restored was returned. */
  lemma RestoredIsTaken(t: Terms, x: Execution, i: nat)
    requires Behaves(t, x) && i < |x.states| && x.states[i].restored
    ensures Returned(x, i)
  {
    var j := RestoredIsGivenBack(t, x, i);
    if TargetLeftAlone(x, j, i) {
      GivenBackStays(t, x, j, i, x.states[i].taken);
    }
  }

  /**
   * No other file is lost. However a run ends, a file that was moved aside was given the target name back
   * by a later call, and still has it unless the other process took it, or is still there under the moved
   * name, unless it is the inspected one with the inspected and accepted contents.
   */
  lemma NothingElseLost(t: Terms, x: Execution, i: nat)
    requires Behaves(t, x) && i < |x.states| && x.states[i].pc.Finished? && x.states[i].taken.Some?
    ensures var r := x.states[i];
            || Returned(x, i)
            || (r.fs.moved.Some? && r.fs.moved.value in r.fs.inodes && r.taken == Some(r.fs.inodes[r.fs.moved.value].id))
            || (r.deleted && r.taken == Some(r.looked) && r.reread == r.inspected && t.accepts(r.inspected))
    ensures var r := x.states[i];
            r.taken != Some(r.looked) || r.reread != r.inspected ==>
              !r.deleted && (Returned(x, i) || (r.fs.moved.Some? && r.taken == Some(r.fs.inodes[r.fs.moved.value].id)))
  {
    RunKeepsSafe(t, x, i);
    if x.states[i].restored {
      RestoredIsTaken(t, x, i);
    }
  }

  /** Unless the call throws, it leaves neither private name behind. */
  lemma NothingLeftBehind(t: Terms, x: Execution, i: nat)
    requires Behaves(t, x) && i < |x.states| && x.states[i].pc.Finished? && x.states[i].pc.outcome != Thrown
    ensures x.states[i].fs.pinned == None && x.states[i].fs.moved == None
  {
    RunKeepsSafe(t, x, i);
  }

  /** `removeFileIfUnchanged` accepts the expected bytes only, so a true answer means that just those were removed. */
  lemma RemovedOnlyIfUnchanged(t: Terms, expected: seq<byte>, x: Execution, i: nat)
    requires forall contents: seq<byte> :: t.accepts(contents) ==> contents == expected
    requires Behaves(t, x) && i < |x.states| && x.states[i].pc == Finished(Removed)
    ensures var r := x.states[i];
            r.inspected == expected && r.reread == expected && r.taken == Some(r.looked)
  {
    RemovedIsInspected(t, x, i);
  }

  /** `n` calls of the protocol while the other process does nothing and the system refuses nothing. */
  function Quiet(t: Terms, r: Removal, n: nat): Removal {
    if n == 0 then r else Act(t, Quiet(t, r, n - 1), Op(false))
  }

  /** Left alone, the protocol removes a regular file whose contents are accepted, in eleven calls. */
  lemma LeftAloneRemoves(t: Terms, fs: Fs)
    requires Ready(fs) && fs.target.Some? && fs.inodes[fs.target.value].regular
    requires t.maximum.Some? ==> |fs.inodes[fs.target.value].bytes| <= t.maximum.value
    requires t.accepts(fs.inodes[fs.target.value].bytes)
    ensures Quiet(t, Begin(fs), 11).pc == Finished(Removed) && Quiet(t, Begin(fs), 11).fs == fs.(target := None)
  {
    hide Act, Quiet;
    ReadsAlone(t, fs);
    TakesAlone(t, fs);
    QuietStep(t, Begin(fs), 5);
    QuietStep(t, Begin(fs), 6);
    RemovesAlone(t, Quiet(t, Begin(fs), 7));
    QuietStep(t, Begin(fs), 7);
    QuietStep(t, Begin(fs), 8);
    QuietStep(t, Begin(fs), 9);
    QuietStep(t, Begin(fs), 10);
  }

  /** The judgement and the rename, undisturbed. */
  lemma TakesAlone(t: Terms, fs: Fs)
    requires Ready(fs) && fs.target.Some? && t.accepts(fs.inodes[fs.target.value].bytes)
    ensures var ino, r := fs.target.value, Act(t, Act(t, ReadAlone(fs), Op(false)), Op(false));
            r == ReadAlone(fs).(fs := fs.(pinned := Some(ino), moved := Some(ino), target := None), moved := true,
                                taken := Some(fs.inodes[ino].id), pc := Comparing)
  {
    hide PinStep, DecideStep, RestoreStep, FinallyStep;
  }

  /** Left alone, it gives a file whose contents are not accepted back untouched, in seven calls. */
  lemma LeftAloneRefuses(t: Terms, fs: Fs)
    requires Ready(fs) && fs.target.Some? && fs.inodes[fs.target.value].regular
    requires t.maximum.Some? ==> |fs.inodes[fs.target.value].bytes| <= t.maximum.value
    requires !t.accepts(fs.inodes[fs.target.value].bytes)
    ensures Quiet(t, Begin(fs), 7).pc == Finished(Thrown) && Quiet(t, Begin(fs), 7).fs == fs
  {
    hide Quiet;
    ReadsAlone(t, fs);
    QuietStep(t, Begin(fs), 5);
    QuietStep(t, Begin(fs), 6);
    var r6 := ReadAlone(fs).(failed := true, pc := Unpinning);
    assert Act(t, ReadAlone(fs), Op(false)) == r6 by {
      hide PinStep, RenameStep, DecideStep, RestoreStep, FinallyStep;
    }
    assert Act(t, r6, Op(false)).pc == Finished(Thrown) && Act(t, r6, Op(false)).fs == fs by {
      hide PinStep, ReadStep, RenameStep, DecideStep, RestoreStep;
    }
  }

  lemma QuietStep(t: Terms, r: Removal, n: nat)
    ensures Quiet(t, r, n + 1) == Act(t, Quiet(t, r, n), Op(false))
  {
  }

  /** The protocol after five undisturbed calls. */
  function ReadAlone(fs: Fs): Removal
    requires fs.target.Some? && fs.target.value in fs.inodes
  {
    var ino := fs.target.value;
    Begin(fs).(fs := fs.(pinned := Some(ino)), pc := Validating, ino := ino, handle := ino, looked := fs.inodes[ino].id, inspected := fs.inodes[ino].bytes)
  }

  lemma ReadsAlone(t: Terms, fs: Fs)
    requires Ready(fs) && fs.target.Some? && fs.inodes[fs.target.value].regular
    requires t.maximum.Some? ==> |fs.inodes[fs.target.value].bytes| <= t.maximum.value
    ensures Quiet(t, Begin(fs), 5) == ReadAlone(fs)
  {
    var ino, r := fs.target.value, Begin(fs);
    var r1 := r.(fs := fs.(pinned := Some(ino)), pc := Inspecting);
    var r2 := r1.(ino := ino, looked := fs.inodes[ino].id, pc := Opening);
    var r3 := r2.(handle := ino, pc := Measuring);
    assert Quiet(t, r, 0) == r;
    hide Quiet, RenameStep, DecideStep, RestoreStep, FinallyStep;
    QuietStep(t, r, 0);
    assert Quiet(t, r, 1) == r1;
    QuietStep(t, r, 1);
    assert Quiet(t, r, 2) == r2;
    QuietStep(t, r, 2);
    assert Quiet(t, r, 3) == r3;
    QuietStep(t, r, 3);
    QuietStep(t, r, 4);
  }

  lemma RemovesAlone(t: Terms, r: Removal)
    requires Runs(r) && r.pc == Comparing && r.moved && !r.removed && !r.failed && !r.cleanupFailed && r.fs.moved == Some(r.ino)
    requires r.fs.inodes[r.ino].regular && r.fs.inodes[r.ino].bytes == r.inspected
    ensures var u := Act(t, Act(t, Act(t, Act(t, r, Op(false)), Op(false)), Op(false)), Op(false));
            u.pc == Finished(Removed) && u.fs == r.fs.(moved := None, pinned := None)
  {
    hide PinStep, ReadStep, RenameStep, RestoreStep;
    var r1 := Act(t, r, Op(false));
    assert r1 == r.(pc := Rereading);
    var r2 := Act(t, r1, Op(false));
    assert r2 == r.(reread := r.inspected, pc := Unlinking);
    var r3 := Act(t, r2, Op(false));
    assert r3 == r2.(fs := r.fs.(moved := None), moved := false, removed := true, deleted := true, pc := Unpinning);
  }
}
