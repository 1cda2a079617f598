/** Crashes and restarts of the audit log, over every run of the logger. */
module AuditRuns {
  import opened Wrappers
  import opened Audit
  import opened AuditRecovery
  import opened AuditSteps

  // ---------------------------------------------------------- crash points

  /**
   * The directory if the process stops after `n` of its disk operations. An append that was under way
   * may have left the first `torn` bytes of its line.
   */
  function CrashDisk(d: Disk, ops: seq<Op>, n: nat, torn: nat): Disk
    requires n <= |ops|
  {
    var at := Replay(d, ops[..n]);
    if torn > 0 && n < |ops| && ops[n].Append? && ops[n].index in at.files
    then at.(files := at.files[ops[n].index := at.files[ops[n].index].(torn := torn)])
    else at
  }

  /** How many of the first `n` operations there are up to and including the last manifest write among them. */
  function LastManifest(ops: seq<Op>, n: nat): (k: nat)
    requires n <= |ops|
    ensures k <= n && (k > 0 ==> ops[k - 1].PutManifest?)
  {
    if n == 0 then 0 else if ops[n - 1].PutManifest? then n else LastManifest(ops, n - 1)
  }

  /**
   * Recovery from one crash point. `base` is the directory as it was when its manifest was written. The
   * crashed directory holds that manifest, and it either is that directory or is rejected.
   */
  ghost predicate Recovers(o: Options, d: Disk, ops: seq<Op>, n: nat, torn: nat)
    requires OptionsValid(o) && n <= |ops|
  {
    var base, after := Replay(d, ops[..LastManifest(ops, n)]), CrashDisk(d, ops, n, torn);
    && (base == EmptyDisk || Load(o, base).Ok?)
    && after.manifest == base.manifest
    && (after == base || Load(o, after).Err?)
  }

  ghost predicate CrashSafe(o: Options, d: Disk, ops: seq<Op>)
    requires OptionsValid(o)
  {
    forall n: nat, torn: nat | n <= |ops| :: Recovers(o, d, ops, n, torn)
  }

  /** The last operation, if there is one, writes the manifest. */
  predicate Closed(ops: seq<Op>) {
    ops == [] || ops[|ops| - 1].PutManifest?
  }

  // ----------------------------------------------------------------- phases

  lemma {:induction false} NoManifestYet(ops: seq<Op>, n: nat)
    requires n <= |ops| && NoManifest(ops[..n])
    ensures LastManifest(ops, n) == 0
  {
    if n > 0 {
      assert !ops[..n][n - 1].PutManifest?;
      assert forall k | 0 <= k < n - 1 :: ops[..n - 1][k] == ops[..n][k];
      NoManifestYet(ops, n - 1);
    }
  }

  /** Until its manifest is written, a phase leaves a directory that is unchanged or rejected. */
  lemma EarlyCrash(o: Options, s: Logger, d: Disk, ops: seq<Op>, n: nat, torn: nat)
    requires InSync(o, s, d) && n <= |ops| && NoManifest(ops[..n])
    ensures Recovers(o, d, ops, n, torn)
  {
    NoManifestYet(ops, n);
    assert ops[..0] == [];
    ReplayKeepsManifest(d, ops[..n]);
    var after := CrashDisk(d, ops, n, torn);
    LoadExactly(o, s, d, after.files);
    LoadExactly(o, s, d, d.files);
    assert after == Disk(after.files, d.manifest);
    hide InSync, Load, Replay;
    assert d == Disk(d.files, d.manifest);
  }

  lemma PhaseCrash(o: Options, s: Logger, d: Disk, t: Logger, ops: seq<Op>, ok: bool)
    requires InSync(o, s, d) && PhaseOk(o, d, t, ops, ok)
    ensures CrashSafe(o, d, ops)
    ensures ok ==> Closed(ops)
  {
    forall n: nat, torn: nat | n <= |ops| ensures Recovers(o, d, ops, n, torn) {
      if n < |ops| || !ok || ops == [] {
        assert ok && ops != [] ==> forall k | 0 <= k < n :: ops[..n][k] == ops[..|ops| - 1][k];
        EarlyCrash(o, s, d, ops, n, torn);
      } else {
        assert ops[..n] == ops;
        LoadsBack(o, t, Replay(d, ops));
      }
    }
  }

  // ------------------------------------------------------------ composition

  lemma {:induction false} LastManifestConcat(a: seq<Op>, b: seq<Op>, n: nat)
    requires n <= |a| + |b| && Closed(a)
    ensures LastManifest(a + b, n) == if n < |a| then LastManifest(a, n)
                                      else if LastManifest(b, n - |a|) > 0 then |a| + LastManifest(b, n - |a|)
                                      else |a|
  {
    if 0 < n {
      assert (a + b)[n - 1] == if n <= |a| then a[n - 1] else b[n - 1 - |a|];
      LastManifestConcat(a, b, n - 1);
    }
  }

  lemma CrashConcat(d: Disk, a: seq<Op>, b: seq<Op>, m: nat, torn: nat)
    requires m <= |b|
    ensures CrashDisk(d, a + b, |a| + m, torn) == CrashDisk(Replay(d, a), b, m, torn)
  {
    BaseConcat(d, a, b, m);
    hide Replay;
    assert m < |b| ==> (a + b)[|a| + m] == b[m];
  }

  lemma BaseConcat(d: Disk, a: seq<Op>, b: seq<Op>, k: nat)
    requires k <= |b|
    ensures Replay(d, (a + b)[..|a| + k]) == Replay(Replay(d, a), b[..k])
  {
    assert (a + b)[..|a| + k] == a + b[..k];
    ReplayConcat(d, a, b[..k]);
  }

  /** After a finished phase, a crash in the next one recovers as that one does from its own start. */
  lemma LaterCrash(o: Options, d: Disk, a: seq<Op>, b: seq<Op>, n: nat, torn: nat)
    requires OptionsValid(o) && Closed(a) && |a| <= n <= |a| + |b|
    requires Recovers(o, Replay(d, a), b, n - |a|, torn)
    ensures Recovers(o, d, a + b, n, torn)
  {
    hide Load, Replay, CrashDisk, LastManifest;
    var m := n - |a|;
    var k := LastManifest(b, m);
    LastManifestConcat(a, b, n);
    assert LastManifest(a + b, n) == |a| + k;
    CrashConcat(d, a, b, m, torn);
    BaseConcat(d, a, b, k);
  }

  lemma Compose(o: Options, d: Disk, a: seq<Op>, b: seq<Op>)
    requires OptionsValid(o) && Closed(a)
    requires CrashSafe(o, d, a) && CrashSafe(o, Replay(d, a), b)
    ensures CrashSafe(o, d, a + b)
    ensures Closed(b) ==> Closed(a + b)
  {
    forall n: nat, torn: nat | n <= |a + b| ensures Recovers(o, d, a + b, n, torn) {
      if n < |a| {
        LastManifestConcat(a, b, n);
        var k := LastManifest(a, n);
        assert (a + b)[..n] == a[..n] && (a + b)[..k] == a[..k];
        assert Recovers(o, d, a, n, torn);
        hide Load, Replay;
        assert CrashDisk(d, a + b, n, torn) == CrashDisk(d, a, n, torn);
      } else {
        assert Recovers(o, Replay(d, a), b, n - |a|, torn);
        LaterCrash(o, d, a, b, n, torn);
      }
    }
  }

  // ----------------------------------------------------------------- record

  /** Rotation resets the hash the record is chained to, but not the length of its line. */
  lemma ReserialisedLength(key: nat, record: AuditRecord, now: int, previous: Hash, other: Hash)
    ensures LineBytes(Stored(Serialize(key, record, now, previous), 0)) == LineBytes(Stored(Serialize(key, record, now, other), 0))
  {
  }

  /** What `record` leaves: agreement and a final manifest write, or a poisoned logger; safe at every crash point. */
  ghost predicate RecordOk(o: Options, d: Disk, t: Logger, ops: seq<Op>, outcome: Outcome, now: int)
    requires OptionsValid(o)
  {
    && CrashSafe(o, d, ops)
    && (t.poisoned ==> outcome == Failed(GenerationExhausted))
    && (!t.poisoned ==> InSync(o, t, Replay(d, ops)) && Closed(ops) && NoneExpired(t, now)
                        && (outcome == Recorded || (outcome == Failed(RecordTooLarge))))
  }

  lemma NothingDone(o: Options, s: Logger, d: Disk)
    requires InSync(o, s, d)
    ensures CrashSafe(o, d, []) && Replay(d, []) == d
  {
    forall n: nat, torn: nat | n <= 0 ensures Recovers(o, d, [], n, torn) {
      EarlyCrash(o, s, d, [], n, torn);
    }
  }

  /** The append on a log that has room for the line. */
  lemma AppendOk(o: Options, s: Logger, d: Disk, record: AuditRecord, now: int)
    requires InSync(o, s, d) && !s.poisoned && NoneExpired(s, now)
    requires s.bytes + LineBytes(Stored(Serialize(o.key, record, now, s.previousHash), 0)) <= o.segmentMax
    ensures var (t, ops, ok) := AppendRecord(o, s, d, record, now);
            RecordOk(o, d, t, ops, if ok then Recorded else Failed(GenerationExhausted), now) && t.initialized == s.initialized
  {
    ActiveUnexpired(o, s, d, now);
    AppendKeeps(o, s, d, record, now);
    hide AppendRecord, InSync, CrashSafe, LineBytes, Serialize;
    var (t, ops, ok) := AppendRecord(o, s, d, record, now);
    PhaseCrash(o, s, d, t, ops, ok);
  }

  lemma ActiveUnexpired(o: Options, s: Logger, d: Disk, now: int)
    requires InSync(o, s, d) && NoneExpired(s, now)
    ensures s.createdAt.Some? ==> !Expired(s.createdAt.value, now)
    ensures !Expired(now, now)
  {
  }

  /** A finished phase followed by the rest of the call. */
  lemma AfterPhase(o: Options, d: Disk, a: seq<Op>, t: Logger, b: seq<Op>, outcome: Outcome, now: int)
    requires OptionsValid(o) && Closed(a) && CrashSafe(o, d, a)
    requires RecordOk(o, Replay(d, a), t, b, outcome, now)
    ensures RecordOk(o, d, t, a + b, outcome, now)
  {
    hide InSync, CrashSafe, Replay;
    Compose(o, d, a, b);
    ReplayConcat(d, a, b);
  }

  lemma EnterOk(o: Options, s: Logger, d: Disk, record: AuditRecord, now: int)
    requires InSync(o, s, d) && !s.poisoned && NoneExpired(s, now)
    ensures var (t, ops, outcome) := Enter(o, s, d, record, now);
            RecordOk(o, d, t, ops, outcome, now) && t.initialized == s.initialized
  {
    var line := LineBytes(Stored(Serialize(o.key, record, now, s.previousHash), 0));
    hide LineBytes, Serialize, AppendRecord, Rotate, CrashSafe, InSync;
    if line > o.segmentMax {
      NothingDone(o, s, d);
    } else if s.bytes > 0 && s.bytes + line > o.segmentMax {
      var (rotated, ops, ok) := Rotate(o, s);
      RotateKeeps(o, s, d);
      PhaseCrash(o, s, d, rotated, ops, ok);
      if ok {
        ReserialisedLength(o.key, record, now, s.previousHash, rotated.previousHash);
        RotatedUnexpired(s, rotated, now);
        AppendOk(o, rotated, Replay(d, ops), record, now);
        var (after, more, written) := AppendRecord(o, rotated, Replay(d, ops), record, now);
        AfterPhase(o, d, ops, after, more, if written then Recorded else Failed(GenerationExhausted), now);
      }
    } else {
      AppendOrFirst(o, s, line);
      AppendOk(o, s, d, record, now);
    }
  }

  lemma AppendOrFirst(o: Options, s: Logger, line: nat)
    requires line <= o.segmentMax && !(s.bytes > 0 && s.bytes + line > o.segmentMax)
    ensures s.bytes + line <= o.segmentMax
  {
  }

  lemma RotatedUnexpired(s: Logger, t: Logger, now: int)
    requires NoneExpired(s, now) && forall j | j in t.segments :: ShiftedFrom(s, t, j)
    ensures NoneExpired(t, now)
  {
    forall j | j in t.segments ensures !Expired(t.segments[j].createdAt, now) {
      assert ShiftedFrom(s, t, j);
    }
  }

  lemma RecordKeeps(o: Options, s: Logger, d: Disk, raw: RawRecord, now: int)
    requires InSync(o, s, d) && s.initialized && !s.poisoned && raw.ValidRecord?
    ensures var (t, ops, outcome) := Record(o, s, d, raw, now);
            RecordOk(o, d, t, ops, outcome, now) && t.initialized
  {
    assert OptionsValid(o);
    hide Expire, Enter, CrashSafe, InSync;
    var (kept, ops, ok) := Expire(o, s, now);
    ExpireKeeps(o, s, d, now);
    PhaseCrash(o, s, d, kept, ops, ok);
    if ok {
      EnterOk(o, kept, Replay(d, ops), raw.record, now);
      var (after, more, outcome) := Enter(o, kept, Replay(d, ops), raw.record, now);
      AfterPhase(o, d, ops, after, more, outcome, now);
    }
  }

  // ------------------------------------------------------------------- lives

  datatype Call = Call(raw: RawRecord, now: int)

  /**
   * One life of the process: `initialize` at `start`, then the calls, whatever their outcome. Index `i` is
   * the moment after `i` calls: the logger, all disk operations so far in order, and the latest outcome.
   */
  datatype Life = Life(start: int, calls: seq<Call>, loggers: seq<Logger>, traces: seq<seq<Op>>, outcomes: seq<Outcome>)

  predicate Sized(x: Life) {
    |x.loggers| == |x.traces| == |x.outcomes| == |x.calls| + 1
  }

  ghost predicate Starts(o: Options, d: Disk, x: Life)
    requires OptionsValid(o) && Sized(x)
  {
    var (s, ops, error) := Initialize(o, d, x.start);
    x.loggers[0] == s && x.traces[0] == ops && x.outcomes[0] == if error == None then Recorded else Failed(error.value)
  }

  ghost predicate Goes(o: Options, d: Disk, x: Life, i: nat)
    requires OptionsValid(o) && Sized(x) && i < |x.calls|
  {
    var (s, more, outcome) := Record(o, x.loggers[i], Replay(d, x.traces[i]), x.calls[i].raw, x.calls[i].now);
    x.loggers[i + 1] == s && x.traces[i + 1] == x.traces[i] + more && x.outcomes[i + 1] == outcome
  }

  ghost predicate Lives(o: Options, d: Disk, x: Life)
    requires OptionsValid(o)
  {
    Sized(x) && Starts(o, d, x) && forall i: nat | i < |x.calls| :: Goes(o, d, x, i)
  }

  function LastTime(x: Life, i: nat): int
    requires i <= |x.calls|
  {
    if i == 0 then x.start else x.calls[i - 1].now
  }

  /** A directory a process may find: empty, or one that loads. Any other makes `initialize` fail at once. */
  ghost predicate Startable(o: Options, d: Disk)
    requires OptionsValid(o)
  {
    d == EmptyDisk || Load(o, d).Ok?
  }

  ghost predicate LifeOk(o: Options, d: Disk, s: Logger, ops: seq<Op>, outcome: Outcome, now: int)
    requires OptionsValid(o)
  {
    && CrashSafe(o, d, ops)
    && (s.initialized && !s.poisoned ==> InSync(o, s, Replay(d, ops)) && Closed(ops))
    && (outcome == Recorded ==> s.initialized && !s.poisoned && NoneExpired(s, now))
  }

  lemma FirstManifest(o: Options, now: int)
    requires OptionsValid(o)
    ensures var (s, ops, _) := Initialize(o, EmptyDisk, now);
            LifeOk(o, EmptyDisk, s, ops, Recorded, now)
  {
    var (s, ops, _) := Initialize(o, EmptyDisk, now);
    var named := Replay(EmptyDisk, ops);
    assert [] + ops == ops && ops[1..] == [] && ops[..0] == [];
    ReplaySnoc(EmptyDisk, [], ops[0]);
    assert InSync(o, s, named);
    LoadsBack(o, s, named);
    forall n: nat, torn: nat | n <= |ops| ensures Recovers(o, EmptyDisk, ops, n, torn) {
      assert n == 0 || n == 1;
      if n == 1 {
        assert ops[..1] == ops;
      }
    }
  }

  lemma InitializeOk(o: Options, d: Disk, now: int)
    requires OptionsValid(o) && Startable(o, d)
    ensures var (s, ops, error) := Initialize(o, d, now);
            LifeOk(o, d, s, ops, if error == None then Recorded else Failed(error.value), now)
  {
    if d == EmptyDisk {
      FirstManifest(o, now);
    } else {
      LoadGivesInSync(o, d);
      var loaded := Load(o, d).value;
      LoadsBack(o, loaded, d);
      hide Load, Expire, CrashSafe, InSync;
      ExpireKeeps(o, loaded, d, now);
      var (s, ops, ok) := Expire(o, loaded, now);
      PhaseCrash(o, loaded, d, s, ops, ok);
      assert !loaded.initialized;
      if ok {
        StartedInSync(o, s, Replay(d, ops), now);
      }
    }
  }

  lemma StartedInSync(o: Options, s: Logger, d: Disk, now: int)
    requires InSync(o, s, d)
    ensures InSync(o, s.(initialized := true), d)
    ensures NoneExpired(s, now) ==> NoneExpired(s.(initialized := true), now)
  {
  }

  lemma {:induction false} LifeKeeps(o: Options, d: Disk, x: Life, i: nat)
    requires OptionsValid(o) && Startable(o, d) && Lives(o, d, x) && i <= |x.calls|
    ensures LifeOk(o, d, x.loggers[i], x.traces[i], x.outcomes[i], LastTime(x, i))
  {
    hide LifeOk, Initialize, Record, Startable, Replay;
    if i == 0 {
      InitializeOk(o, d, x.start);
    } else {
      var k := i - 1;
      LifeKeeps(o, d, x, k);
      assert Goes(o, d, x, k);
      CallOk(o, d, x.loggers[k], x.traces[k], x.outcomes[k], LastTime(x, k), x.calls[k].raw, x.calls[k].now);
    }
  }

  lemma CallOk(o: Options, d: Disk, s: Logger, ops: seq<Op>, before: Outcome, past: int, raw: RawRecord, now: int)
    requires OptionsValid(o) && LifeOk(o, d, s, ops, before, past)
    ensures var (t, more, outcome) := Record(o, s, Replay(d, ops), raw, now);
            LifeOk(o, d, t, ops + more, outcome, now)
  {
    var (t, more, outcome) := Record(o, s, Replay(d, ops), raw, now);
    if s.initialized && !s.poisoned && raw.ValidRecord? {
      RecordKeeps(o, s, Replay(d, ops), raw, now);
      hide Record, InSync, CrashSafe, NoneExpired;
      Compose(o, d, ops, more);
      ReplayConcat(d, ops, more);
    } else {
      assert more == [] && t == s && ops + more == ops;
    }
  }

  // ------------------------------------------------------------ main results

  /**
   * Crash recovery. Whatever process ran on a directory that loads, and at whichever disk operation it
   * stopped, let `base` be the directory as it was when the last manifest was written: it is empty or it
   * loads. If the directory left behind is `base`, the next `initialize` accepts it (unless the generation
   * runs out while it removes expired segments); if not, the next `initialize` fails and writes nothing.
   */
  lemma CrashRecovery(o: Options, d: Disk, x: Life, i: nat, n: nat, torn: nat, now: int)
    requires OptionsValid(o) && Startable(o, d) && Lives(o, d, x)
    requires i <= |x.calls| && n <= |x.traces[i]|
    ensures var base, after := Replay(d, x.traces[i][..LastManifest(x.traces[i], n)]), CrashDisk(d, x.traces[i], n, torn);
            var (_, ops, error) := Initialize(o, after, now);
            && Startable(o, base) && after.manifest == base.manifest
            && if after == base then error == None || error == Some(GenerationExhausted) else error.Some? && ops == []
  {
    LifeKeeps(o, d, x, i);
    assert Recovers(o, d, x.traces[i], n, torn);
    hide Lives, LifeOk, Replay, CrashDisk, LastManifest;
    RestartDecides(o, Replay(d, x.traces[i][..LastManifest(x.traces[i], n)]), CrashDisk(d, x.traces[i], n, torn), now);
  }

  /** A directory with the manifest of an acceptable one that is not that one is not the empty one either. */
  lemma RestartDecides(o: Options, base: Disk, after: Disk, now: int)
    requires OptionsValid(o) && Startable(o, base) && after.manifest == base.manifest
    requires after == base || Load(o, after).Err?
    ensures var (_, ops, error) := Initialize(o, after, now);
            if after == base then error == None || error == Some(GenerationExhausted) else error.Some? && ops == []
  {
    hide LoadSegments, Expire, LayoutError;
  }

  /** And what a directory loads is what its manifest names: the generation and the segments, in order. */
  lemma LoadedAsNamed(o: Options, d: Disk)
    requires OptionsValid(o) && Load(o, d).Ok?
    ensures d.manifest.Written?
    ensures var s, m := Load(o, d).value, d.manifest.manifest;
            s.generation == m.generation && SegmentList(s.segments) == m.segments && s.segments.Keys == d.files.Keys
  {
    LoadGivesInSync(o, d);
  }

  /**
   * Restart is the identity. After any run whose last call succeeded, a fresh `initialize` with the same
   * options and the same time changes nothing on disk and rebuilds every field of the logger.
   */
  lemma RestartIsIdentity(o: Options, d: Disk, x: Life, i: nat)
    requires OptionsValid(o) && Startable(o, d) && Lives(o, d, x)
    requires i <= |x.calls| && x.outcomes[i] == Recorded
    ensures Initialize(o, Replay(d, x.traces[i]), LastTime(x, i)) == (x.loggers[i], [], None)
  {
    LifeKeeps(o, d, x, i);
    var s, left := x.loggers[i], Replay(d, x.traces[i]);
    hide Lives, Load, Replay, Expire, NoneExpired, CrashSafe;
    LoadsBack(o, s, left);
    DurableInSync(o, s, left, LastTime(x, i));
    ExpireKeeps(o, Durable(s), left, LastTime(x, i));
    assert Durable(s).(initialized := true) == s;
  }

  lemma DurableInSync(o: Options, s: Logger, d: Disk, now: int)
    requires InSync(o, s, d) && NoneExpired(s, now)
    ensures InSync(o, Durable(s), d) && NoneExpired(Durable(s), now)
  {
  }

  /** Throughout a run the segments never hold more bytes than the configured total. */
  lemma TotalBytesBounded(o: Options, d: Disk, x: Life, i: nat)
    requires OptionsValid(o) && Startable(o, d) && Lives(o, d, x)
    requires i <= |x.calls| && x.loggers[i].initialized && !x.loggers[i].poisoned
    ensures TotalBytes(SegmentList(x.loggers[i].segments)) <= o.totalMax
  {
    LifeKeeps(o, d, x, i);
    TotalStaysWithin(o, x.loggers[i], Replay(d, x.traces[i]).files);
  }

  // ----------------------------------------------------------- each record

  /** A crash between the append and its manifest, or during the append, is always rejected afterwards. */
  lemma AppendFailsClosed(o: Options, s: Logger, d: Disk, entry: PersistedRecord, torn: nat)
    requires InSync(o, s, d)
    ensures Load(o, Replay(d, [Create(0), Append(0, Stored(entry, 0))])).Err?
    ensures torn > 0 ==> Load(o, CrashDisk(d, [Create(0), Append(0, Stored(entry, 0))], 1, torn)).Err?
  {
    var ops := [Create(0), Append(0, Stored(entry, 0))];
    AppendReplays(d, entry);
    var appended := Replay(d, ops);
    LoadExactly(o, s, d, appended.files);
    assert 0 in d.files ==> |appended.files[0].lines| == |d.files[0].lines| + 1;
    assert appended == Disk(appended.files, d.manifest);
    if torn > 0 {
      var cut := CrashDisk(d, ops, 1, torn);
      assert ops[..1] == [Create(0)] && [Create(0)][1..] == [];
      assert Replay(d, ops[..1]) == Replay(Apply(d, Create(0)), []);
      LoadExactly(o, s, d, cut.files);
      assert 0 in d.files ==> cut.files[0].torn != d.files[0].torn by {
        if 0 in d.files {
          assert Sound(o, 0, s.segments[0], d.files[0]);
        }
      }
      assert cut == Disk(cut.files, d.manifest);
    }
  }

  /** The active file ends with this record, written at this time. */
  ghost predicate EndsWith(d: Disk, record: AuditRecord, now: int) {
    && 0 in d.files && d.files[0].lines != []
    && var line := d.files[0].lines[|d.files[0].lines| - 1];
       line.Stored? && line.entry.record == record && line.entry.timestamp == now
  }

  lemma AppendSucceeds(o: Options, s: Logger, d: Disk, record: AuditRecord, now: int)
    requires InSync(o, s, d) && !s.poisoned && s.generation < MAX_SAFE_INTEGER
    requires s.bytes + LineBytes(Stored(Serialize(o.key, record, now, s.previousHash), 0)) <= o.segmentMax
    ensures var (t, ops, ok) := AppendRecord(o, s, d, record, now);
            ok && EndsWith(Replay(d, ops), record, now)
  {
    AppendKeeps(o, s, d, record, now);
    hide AppendRecord, InSync, Replay, LineBytes;
  }

  /**
   * `record` succeeds whenever the line fits a segment and the generation is not about to run out: none of
   * its integrity errors can be reached, and after a rotation the line always fits. The record is then the
   * last line of the active file.
   */
  lemma RecordSucceeds(o: Options, s: Logger, d: Disk, record: AuditRecord, now: int)
    requires InSync(o, s, d) && s.initialized && !s.poisoned && s.generation + 3 <= MAX_SAFE_INTEGER
    requires LineBytes(Stored(Serialize(o.key, record, now, Initial), 0)) <= o.segmentMax
    ensures var (t, ops, outcome) := Record(o, s, d, ValidRecord(record), now);
            outcome == Recorded && EndsWith(Replay(d, ops), record, now)
  {
    assert OptionsValid(o);
    ExpireKeeps(o, s, d, now);
    ExpireCounts(o, s, now);
    hide Expire, Enter, InSync, EndsWith, CrashSafe, LineBytes, Serialize;
    var (kept, ops, ok) := Expire(o, s, now);
    EnterSucceeds(o, kept, Replay(d, ops), record, now);
    ReplayConcat(d, ops, Enter(o, kept, Replay(d, ops), record, now).1);
  }

  lemma ExpireCounts(o: Options, s: Logger, now: int)
    requires s.generation < MAX_SAFE_INTEGER
    ensures Expire(o, s, now).2 && Expire(o, s, now).0.generation <= s.generation + 1
  {
  }

  lemma EnterSucceeds(o: Options, s: Logger, d: Disk, record: AuditRecord, now: int)
    requires InSync(o, s, d) && !s.poisoned && s.generation + 2 <= MAX_SAFE_INTEGER
    requires LineBytes(Stored(Serialize(o.key, record, now, Initial), 0)) <= o.segmentMax
    ensures var (t, ops, outcome) := Enter(o, s, d, record, now);
            outcome == Recorded && EndsWith(Replay(d, ops), record, now)
  {
    ReserialisedLength(o.key, record, now, s.previousHash, Initial);
    assert OptionsValid(o);
    var line := LineBytes(Stored(Serialize(o.key, record, now, s.previousHash), 0));
    hide LineBytes, Serialize, AppendRecord, InSync, EndsWith, Replay;
    if s.bytes > 0 && s.bytes + line > o.segmentMax {
      RotateKeeps(o, s, d);
      RotateCounts(o, s);
      hide Rotate;
      var (rotated, ops, ok) := Rotate(o, s);
      ReserialisedLength(o.key, record, now, rotated.previousHash, Initial);
      AppendSucceeds(o, rotated, Replay(d, ops), record, now);
      ReplayConcat(d, ops, AppendRecord(o, rotated, Replay(d, ops), record, now).1);
    } else {
      AppendOrFirst(o, s, line);
      AppendSucceeds(o, s, d, record, now);
    }
  }

  lemma RotateCounts(o: Options, s: Logger)
    requires OptionsValid(o) && s.generation < MAX_SAFE_INTEGER
    ensures Rotate(o, s).2 && Rotate(o, s).0.generation <= s.generation + 1
    ensures Rotate(o, s).0.bytes == 0
  {
  }

  /** Each refusal of `record` is true, and exactly those of the first four kinds touch nothing. */
  lemma RecordRefusals(o: Options, s: Logger, d: Disk, raw: RawRecord, now: int)
    requires OptionsValid(o)
    ensures var (t, ops, outcome) := Record(o, s, d, raw, now);
            && (outcome == Failed(NotInitialized) <==> !s.initialized)
            && (outcome == Failed(Unavailable) <==> s.initialized && s.poisoned)
            && (outcome == Failed(RecordInvalid) <==> s.initialized && !s.poisoned && raw.InvalidRecord?)
            && (!s.initialized || s.poisoned || raw.InvalidRecord? ==> t == s && ops == [])
            && (outcome == Failed(RecordTooLarge) ==>
                  raw.ValidRecord? && LineBytes(Stored(Serialize(o.key, raw.record, now, Initial), 0)) > o.segmentMax)
  {
    if s.initialized && !s.poisoned && raw.ValidRecord? {
      var (kept, ops, ok) := Expire(o, s, now);
      ReserialisedLength(o.key, raw.record, now, kept.previousHash, Initial);
      hide Expire, AppendRecord, Rotate, LineBytes, Serialize;
    }
  }
}
