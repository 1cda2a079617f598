/** The size limits of the audit directory, at every disk operation of every run. */
module AuditBounds {
  import opened Audit
  import opened AuditRecovery
  import opened AuditSteps
  import opened AuditRuns

  /** Only the allowed names, and no file beyond the segment limit. */
  ghost predicate Fitting(o: Options, files: map<nat, File>)
    requires OptionsValid(o)
  {
    forall i | i in files :: i < MaxSegments(o) && FileBytes(files[i]) <= o.segmentMax
  }

  /** The directory fits before the operations and after each of them. */
  ghost predicate FitsAlong(o: Options, d: Disk, ops: seq<Op>)
    requires OptionsValid(o)
  {
    forall n: nat | n <= |ops| :: Fitting(o, Replay(d, ops[..n]).files)
  }

  /** Operations that write no line and name allowed files only. */
  predicate Harmless(o: Options, op: Op)
    requires OptionsValid(o)
  {
    match op
    case Rename(_, j) => j < MaxSegments(o)
    case Create(i) => i < MaxSegments(o)
    case Append(_, _) => false
    case _ => true
  }

  lemma HarmlessFits(o: Options, d: Disk, op: Op)
    requires OptionsValid(o) && Fitting(o, d.files) && Harmless(o, op)
    ensures Fitting(o, Apply(d, op).files)
  {
    hide MaxSegments;
  }

  lemma {:induction false} HarmlessAlong(o: Options, d: Disk, ops: seq<Op>)
    requires OptionsValid(o) && Fitting(o, d.files) && forall k | 0 <= k < |ops| :: Harmless(o, ops[k])
    ensures FitsAlong(o, d, ops)
    decreases |ops|
  {
    hide Fitting, Harmless, Apply;
    if ops == [] {
      assert ops[..0] == [];
    } else {
      HarmlessFits(o, d, ops[0]);
      HarmlessAlong(o, Apply(d, ops[0]), ops[1..]);
      forall n: nat | n <= |ops| ensures Fitting(o, Replay(d, ops[..n]).files) {
        if n > 0 {
          assert ops[..n][1..] == ops[1..][..n - 1];
          assert Replay(d, ops[..n]) == Replay(Apply(d, ops[0]), ops[1..][..n - 1]);
        }
      }
    }
  }

  lemma AlongThen(o: Options, d: Disk, a: seq<Op>, b: seq<Op>)
    requires OptionsValid(o) && FitsAlong(o, d, a) && FitsAlong(o, Replay(d, a), b)
    ensures FitsAlong(o, d, a + b)
  {
    hide Fitting, Replay;
    forall n: nat | n <= |a + b| ensures Fitting(o, Replay(d, (a + b)[..n]).files) {
      if n <= |a| {
        assert (a + b)[..n] == a[..n];
      } else {
        BaseConcat(d, a, b, n - |a|);
      }
    }
  }

  lemma InSyncFits(o: Options, s: Logger, d: Disk)
    requires InSync(o, s, d)
    ensures OptionsValid(o) && Fitting(o, d.files) && FitsAlong(o, d, [])
  {
    forall i | i in d.files ensures i < MaxSegments(o) && FileBytes(d.files[i]) <= o.segmentMax {
      assert Sound(o, i, s.segments[i], d.files[i]);
    }
    HarmlessAlong(o, d, []);
  }

  lemma {:induction false} UnlinksHarmless(o: Options, segments: map<nat, Segment>, now: int, from: nat)
    requires OptionsValid(o)
    ensures forall k | 0 <= k < |UnlinkOps(segments, now, from)| :: Harmless(o, UnlinkOps(segments, now, from)[k])
    decreases AUDIT_MAX_SEGMENTS - from
  {
    if from < AUDIT_MAX_SEGMENTS {
      UnlinksHarmless(o, segments, now, from + 1);
    }
  }

  lemma {:induction false} RenamesHarmless(o: Options, free: nat)
    requires OptionsValid(o) && free < MaxSegments(o)
    ensures forall k | 0 <= k < |RotateOps(MaxSegments(o), free)| :: Harmless(o, RotateOps(MaxSegments(o), free)[k])
    decreases MaxSegments(o) - free
  {
    if free < MaxSegments(o) - 1 {
      RenamesHarmless(o, free + 1);
    }
  }

  lemma ExpireFits(o: Options, s: Logger, d: Disk, now: int)
    requires OptionsValid(o) && Fitting(o, d.files)
    ensures FitsAlong(o, d, Expire(o, s, now).1)
  {
    UnlinksHarmless(o, s.segments, now, 0);
    hide UnlinkOps, SegmentList, Fitting, MaxSegments;
    HarmlessAlong(o, d, Expire(o, s, now).1);
  }

  lemma RotateFits(o: Options, s: Logger, d: Disk)
    requires OptionsValid(o) && Fitting(o, d.files)
    ensures FitsAlong(o, d, Rotate(o, s).1)
  {
    RenamesHarmless(o, 0);
    hide RotateOps, SegmentList, Fitting, MaxSegments, Shifted;
    HarmlessAlong(o, d, Rotate(o, s).1);
  }

  /** The append of a line that fits: the active file is created if need be, and then grows by the line. */
  lemma AppendFits(o: Options, s: Logger, d: Disk, record: AuditRecord, now: int)
    requires InSync(o, s, d)
    requires s.bytes + LineBytes(Stored(Serialize(o.key, record, now, s.previousHash), 0)) <= o.segmentMax
    ensures OptionsValid(o) && FitsAlong(o, d, AppendRecord(o, s, d, record, now).1)
  {
    hide LineBytes, Serialize, InSync, MaxSegments, Grown, SegmentList, Fitting, Apply, Appended, Replay;
    var line := Stored(Serialize(o.key, record, now, s.previousHash), 0);
    InSyncFits(o, s, d);
    ActiveFits(o, s, d, line);
    TwoAlong(o, d, Create(0), Append(0, line));
    var ops := AppendRecord(o, s, d, record, now).1;
    assert ops == [Create(0), Append(0, line)] + ops[2..];
    HarmlessAlong(o, Replay(d, [Create(0), Append(0, line)]), ops[2..]);
    AlongThen(o, d, [Create(0), Append(0, line)], ops[2..]);
  }

  lemma TwoAlong(o: Options, d: Disk, first: Op, second: Op)
    requires OptionsValid(o) && Fitting(o, d.files) && Fitting(o, Apply(d, first).files)
    requires Fitting(o, Apply(Apply(d, first), second).files)
    ensures FitsAlong(o, d, [first, second]) && Fitting(o, Replay(d, [first, second]).files)
  {
    hide Fitting, Apply;
    assert [first, second][..0] == [] && [first, second][..1] == [first] && [first, second][..2] == [first, second];
    assert [first][1..] == [] && [first, second][1..] == [second] && [second][1..] == [];
    assert Replay(d, [first]) == Replay(Apply(d, first), []);
    assert Replay(Apply(d, first), [second]) == Replay(Apply(Apply(d, first), second), []);
  }

  lemma ActiveFits(o: Options, s: Logger, d: Disk, line: Line)
    requires InSync(o, s, d) && Fitting(o, d.files) && s.bytes + LineBytes(line) <= o.segmentMax
    ensures Fitting(o, Apply(d, Create(0)).files) && Fitting(o, Apply(Apply(d, Create(0)), Append(0, line)).files)
  {
    ActiveSize(o, s, d);
    MaxSegmentsAtLeast(o);
    hide LineBytes, MaxSegments, InSync, LinesBytes;
    var created := Apply(d, Create(0));
    LinesBytesSnoc(created.files[0].lines, line);
    assert LinesBytes([]) == 0 by {
      NoLines();
    }
  }

  lemma NoLines()
    ensures LinesBytes([]) == 0
  {
  }

  lemma EnterFits(o: Options, s: Logger, d: Disk, record: AuditRecord, now: int)
    requires InSync(o, s, d) && !s.poisoned
    ensures OptionsValid(o) && FitsAlong(o, d, Enter(o, s, d, record, now).1)
  {
    var line := LineBytes(Stored(Serialize(o.key, record, now, s.previousHash), 0));
    InSyncFits(o, s, d);
    hide LineBytes, Serialize, AppendRecord, Rotate, InSync, FitsAlong, Fitting, Rotated;
    if line > o.segmentMax {
    } else if s.bytes > 0 && s.bytes + line > o.segmentMax {
      var (rotated, ops, ok) := Rotate(o, s);
      RotateFits(o, s, d);
      RotateKeeps(o, s, d);
      if ok {
        ReserialisedLength(o.key, record, now, s.previousHash, rotated.previousHash);
        AppendFits(o, rotated, Replay(d, ops), record, now);
        AlongThen(o, d, ops, AppendRecord(o, rotated, Replay(d, ops), record, now).1);
      }
    } else {
      AppendOrFirst(o, s, line);
      AppendFits(o, s, d, record, now);
    }
  }

  lemma RecordFits(o: Options, s: Logger, d: Disk, raw: RawRecord, now: int)
    requires InSync(o, s, d) && !s.poisoned
    ensures OptionsValid(o) && FitsAlong(o, d, Record(o, s, d, raw, now).1)
  {
    InSyncFits(o, s, d);
    hide Expire, Enter, InSync, FitsAlong, Fitting;
    if s.initialized && raw.ValidRecord? {
      var (kept, ops, ok) := Expire(o, s, now);
      ExpireFits(o, s, d, now);
      ExpireKeeps(o, s, d, now);
      if ok {
        EnterFits(o, kept, Replay(d, ops), raw.record, now);
        AlongThen(o, d, ops, Enter(o, kept, Replay(d, ops), raw.record, now).1);
      }
    }
  }

  lemma InitializeFits(o: Options, d: Disk, now: int)
    requires OptionsValid(o) && Startable(o, d)
    ensures FitsAlong(o, d, Initialize(o, d, now).1)
  {
    hide Load, Expire, Loaded, SegmentList;
    if d == EmptyDisk {
      HarmlessAlong(o, d, Initialize(o, d, now).1);
    } else {
      LoadGivesInSync(o, d);
      var loaded := Load(o, d).value;
      LoadedFits(o, d);
      ExpireFits(o, loaded, d, now);
    }
  }

  lemma LoadedFits(o: Options, d: Disk)
    requires OptionsValid(o) && Load(o, d).Ok?
    ensures Fitting(o, d.files)
  {
    LoadGivesInSync(o, d);
    hide Load, InSync, Fitting;
    InSyncFits(o, Load(o, d).value, d);
  }

  lemma {:induction false} LifeFits(o: Options, d: Disk, x: Life, i: nat)
    requires OptionsValid(o) && Startable(o, d) && Lives(o, d, x) && i <= |x.calls|
    ensures FitsAlong(o, d, x.traces[i])
  {
    hide LifeOk, Initialize, Record, Startable, Replay, FitsAlong;
    if i == 0 {
      InitializeFits(o, d, x.start);
    } else {
      var k := i - 1;
      LifeFits(o, d, x, k);
      LifeKeeps(o, d, x, k);
      assert Goes(o, d, x, k);
      CallFits(o, d, x.loggers[k], x.traces[k], x.outcomes[k], LastTime(x, k), x.calls[k].raw, x.calls[k].now);
    }
  }

  lemma CallFits(o: Options, d: Disk, s: Logger, ops: seq<Op>, before: Outcome, past: int, raw: RawRecord, now: int)
    requires OptionsValid(o) && LifeOk(o, d, s, ops, before, past) && FitsAlong(o, d, ops)
    ensures FitsAlong(o, d, ops + Record(o, s, Replay(d, ops), raw, now).1)
  {
    hide FitsAlong, Replay, CrashSafe, InSync;
    if s.initialized && !s.poisoned {
      RecordFits(o, s, Replay(d, ops), raw, now);
      hide Record;
      AlongThen(o, d, ops, Record(o, s, Replay(d, ops), raw, now).1);
    } else {
      assert ops + [] == ops;
    }
  }

  // ------------------------------------------------------------------ total

  /** The bytes of all segment files below an index. */
  function FilesBytes(files: map<nat, File>, below: nat): nat {
    if below == 0 then 0
    else FilesBytes(files, below - 1) + if below - 1 in files then FileBytes(files[below - 1]) else 0
  }

  lemma {:induction false} FilesWithin(o: Options, files: map<nat, File>, below: nat)
    requires OptionsValid(o) && Fitting(o, files)
    ensures FilesBytes(files, below) <= (if below <= MaxSegments(o) then below else MaxSegments(o)) * o.segmentMax
  {
    hide MaxSegments, FileBytes;
    if below > 0 {
      FilesWithin(o, files, below - 1);
      assert below * o.segmentMax == (below - 1) * o.segmentMax + o.segmentMax;
    }
  }

  /**
   * After every disk operation of every run, also of a run that fails half-way through a call, the directory
   * holds allowed segment files only, none above the segment limit, and all of them within the total.
   */
  lemma DirectoryBounded(o: Options, d: Disk, x: Life, i: nat, n: nat)
    requires OptionsValid(o) && Startable(o, d) && Lives(o, d, x)
    requires i <= |x.calls| && n <= |x.traces[i]|
    ensures var files := Replay(d, x.traces[i][..n]).files;
            && (forall j | j in files :: j < MaxSegments(o) && FileBytes(files[j]) <= o.segmentMax)
            && FilesBytes(files, AUDIT_MAX_SEGMENTS) <= o.totalMax
  {
    LifeFits(o, d, x, i);
    hide Lives, FilesBytes, FileBytes, Replay;
    FilesWithin(o, Replay(d, x.traces[i][..n]).files, AUDIT_MAX_SEGMENTS);
    MaxSegmentsFit(o);
  }

  lemma MaxSegmentsFit(o: Options)
    requires OptionsValid(o)
    ensures MaxSegments(o) <= AUDIT_MAX_SEGMENTS && MaxSegments(o) * o.segmentMax <= o.totalMax
  {
  }
}
