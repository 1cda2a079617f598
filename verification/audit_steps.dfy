/** Expiry, rotation and append each take a consistent log to a consistent log. */
module AuditSteps {
  import opened Wrappers
  import opened Audit
  import opened AuditChain
  import opened AuditRecovery

  lemma {:induction false} ReplayConcat(d: Disk, a: seq<Op>, b: seq<Op>)
    ensures Replay(d, a + b) == Replay(Replay(d, a), b)
    decreases |a|
  {
    if a == [] {
      assert a + b == b;
    } else {
      assert (a + b)[1..] == a[1..] + b;
      ReplayConcat(Apply(d, a[0]), a[1..], b);
    }
  }

  lemma ReplaySnoc(d: Disk, ops: seq<Op>, op: Op)
    ensures Replay(d, ops + [op]) == Apply(Replay(d, ops), op)
  {
    ReplayConcat(d, ops, [op]);
    assert [op][1..] == [];
    assert Replay(Apply(Replay(d, ops), op), []) == Apply(Replay(d, ops), op);
  }

  predicate NoManifest(ops: seq<Op>) {
    forall k | 0 <= k < |ops| :: !ops[k].PutManifest?
  }

  /** Operations on segment files leave the manifest alone. */
  lemma {:induction false} ReplayKeepsManifest(d: Disk, ops: seq<Op>)
    requires NoManifest(ops)
    ensures Replay(d, ops).manifest == d.manifest
    decreases |ops|
  {
    if ops != [] {
      ReplayKeepsManifest(Apply(d, ops[0]), ops[1..]);
    }
  }

  /**
   * What every phase of `record` promises: its operations change segment files only, except for the
   * manifest that ends them if it succeeds; then logger, files and manifest agree again. A failed
   * phase leaves a poisoned logger.
   */
  ghost predicate PhaseOk(o: Options, d: Disk, t: Logger, ops: seq<Op>, ok: bool) {
    if ok then
      && InSync(o, t, Replay(d, ops)) && !t.poisoned
      && (ops == [] || (NoManifest(ops[..|ops| - 1]) && ops[|ops| - 1].PutManifest?))
    else NoManifest(ops) && t.poisoned
  }

  /** Ending a phase whose fields describe the changed files. */
  lemma PersistKeeps(o: Options, s: Logger, d: Disk, ops: seq<Op>)
    requires NoManifest(ops) && Consistent(o, s, Replay(d, ops).files) && !s.poisoned
    ensures var (t, all, ok) := PersistAfter(o, s, ops);
            && PhaseOk(o, d, t, all, ok) && t.initialized == s.initialized
            && (ok <==> s.generation < MAX_SAFE_INTEGER)
            && t == (if ok then s.(generation := s.generation + 1) else s.(poisoned := true))
            && (ok ==> Replay(d, all).files == Replay(d, ops).files)
  {
    hide SegmentsSound, SegmentList, MaxSegments, Replay;
    if s.generation < MAX_SAFE_INTEGER {
      var t := s.(generation := s.generation + 1);
      var put := PutManifest(Signed(o.key, t.generation, SegmentList(t.segments)));
      ReplaySnoc(d, ops, put);
      assert (ops + [put])[..|ops|] == ops;
    }
  }

  // ----------------------------------------------------------------- expiry

  /** The expired segments from an index on. */
  ghost function ExpiredFrom(segments: map<nat, Segment>, now: int, from: nat): set<nat> {
    set i | i in segments && from <= i < AUDIT_MAX_SEGMENTS && Expired(segments[i].createdAt, now)
  }

  lemma {:induction false} UnlinksExpired(d: Disk, segments: map<nat, Segment>, now: int, from: nat)
    ensures Replay(d, UnlinkOps(segments, now, from)) == d.(files := d.files - ExpiredFrom(segments, now, from))
    ensures NoManifest(UnlinkOps(segments, now, from))
    ensures UnlinkOps(segments, now, from) == [] <==> ExpiredFrom(segments, now, from) == {}
    decreases AUDIT_MAX_SEGMENTS - from
  {
    if from >= AUDIT_MAX_SEGMENTS {
      assert ExpiredFrom(segments, now, from) == {};
      assert d.files - {} == d.files;
    } else {
      UnlinksExpired(d, segments, now, from + 1);
      var ops := UnlinkOps(segments, now, from + 1);
      if from in segments && Expired(segments[from].createdAt, now) {
        ReplaySnoc(d, ops, Unlink(from));
        assert ExpiredFrom(segments, now, from) == ExpiredFrom(segments, now, from + 1) + {from};
        assert d.files - ExpiredFrom(segments, now, from + 1) - {from} == d.files - ExpiredFrom(segments, now, from);
      } else {
        assert ops + [] == ops;
        assert ExpiredFrom(segments, now, from) == ExpiredFrom(segments, now, from + 1);
      }
    }
  }

  ghost predicate NoneExpired(s: Logger, now: int) {
    forall i | i in s.segments :: !Expired(s.segments[i].createdAt, now)
  }

  /** `removeExpiredSegments` removes exactly the expired segments and persists once, or does nothing. */
  lemma ExpireKeeps(o: Options, s: Logger, d: Disk, now: int)
    requires InSync(o, s, d) && !s.poisoned
    ensures var (t, ops, ok) := Expire(o, s, now);
            && PhaseOk(o, d, t, ops, ok) && t.initialized == s.initialized
            && t.segments == Unexpired(s.segments, now) && NoneExpired(t, now)
            && (ok ==> Replay(d, ops).files == map i | i in t.segments :: d.files[i])
            && (NoneExpired(s, now) ==> ok && ops == [] && t == s)
  {
    var ops := UnlinkOps(s.segments, now, 0);
    var next := Kept(s, now);
    UnlinksExpired(d, s.segments, now, 0);
    ExpiryConsistent(o, s, d.files, now);
    hide UnlinkOps, Consistent, PersistAfter, ExpiredFrom, SegmentList, Replay;
    if ops == [] {
      assert next == s;
    } else {
      PersistKeeps(o, next, d, ops);
    }
  }

  lemma ExpiryConsistent(o: Options, s: Logger, files: map<nat, File>, now: int)
    requires Consistent(o, s, files)
    ensures var next, gone := Kept(s, now), ExpiredFrom(s.segments, now, 0);
            && Consistent(o, next, files - gone)
            && files - gone == (map i | i in next.segments :: files[i])
            && (gone == {} <==> NoneExpired(s, now))
            && (gone == {} ==> next == s && files - gone == files)
  {
    hide SegmentsSound, ExpiredFrom, MaxSegments;
    RestrictSound(o, s.segments, files, now);
    if NoneExpired(s, now) {
      assert Kept(s, now).segments == s.segments;
    }
  }

  lemma RestrictSound(o: Options, segments: map<nat, Segment>, files: map<nat, File>, now: int)
    requires OptionsValid(o) && SegmentsSound(o, segments, files)
    ensures var gone, kept := ExpiredFrom(segments, now, 0), Unexpired(segments, now);
            && SegmentsSound(o, kept, files - gone)
            && files - gone == (map i | i in kept :: files[i])
            && (gone == {} <==> forall i | i in segments :: !Expired(segments[i].createdAt, now))
            && (gone == {} ==> files - gone == files)
  {
    hide MaxSegments, LoadSegment;
    MaxSegmentsAtMost(o);
    var gone, kept := ExpiredFrom(segments, now, 0), Unexpired(segments, now);
    assert kept.Keys == segments.Keys - gone;
    if i :| i in segments && Expired(segments[i].createdAt, now) {
      assert i in gone;
    }
  }

  // --------------------------------------------------------------- rotation

  function FileAt(files: map<nat, File>, j: nat): Option<File> {
    if j in files then Some(files[j]) else None
  }

  /** The file one index down. */
  function FileBelow(files: map<nat, File>, j: nat): Option<File> {
    if j == 0 then None else FileAt(files, j - 1)
  }

  /** Rotation until an index is free: the files below it stay, those from it on moved one up, the last is dropped. */
  ghost predicate RotatedTo(before: map<nat, File>, after: map<nat, File>, max: nat, free: nat) {
    forall j: nat :: FileAt(after, j) ==
      if j < free then FileAt(before, j) else if j == free || j >= max then None else FileBelow(before, j)
  }

  /** Rotation on the disk: each file below the last index moves one up, the last one is dropped. */
  ghost predicate Rotated(before: map<nat, File>, after: map<nat, File>, max: nat) {
    forall j: nat :: FileAt(after, j) == if j < max then FileBelow(before, j) else None
  }

  lemma {:induction false} RenamesShift(d: Disk, max: nat, free: nat)
    requires free < max && forall i | i in d.files :: i < max
    ensures NoManifest(RotateOps(max, free)) && Replay(d, RotateOps(max, free)).manifest == d.manifest
    ensures RotatedTo(d.files, Replay(d, RotateOps(max, free)).files, max, free)
    decreases max - free
  {
    if free == max - 1 {
      ReplaySnoc(d, [], Unlink(max - 1));
      assert [] + [Unlink(max - 1)] == [Unlink(max - 1)];
    } else {
      RenamesShift(d, max, free + 1);
      var ops := RotateOps(max, free + 1);
      ReplaySnoc(d, ops, Rename(free, free + 1));
      OneMoreUp(d.files, Replay(d, ops), max, free);
    }
  }

  lemma OneMoreUp(before: map<nat, File>, d: Disk, max: nat, free: nat)
    requires free + 1 < max && RotatedTo(before, d.files, max, free + 1)
    ensures RotatedTo(before, Apply(d, Rename(free, free + 1)).files, max, free)
  {
    var after := Apply(d, Rename(free, free + 1)).files;
    forall j: nat ensures FileAt(after, j) ==
      if j < free then FileAt(before, j) else if j == free || j >= max then None else FileBelow(before, j)
    {
      assert FileAt(d.files, j) ==
        if j < free + 1 then FileAt(before, j) else if j == free + 1 || j >= max then None else FileBelow(before, j);
      assert FileAt(d.files, free) == FileAt(before, free);
    }
  }

  lemma RotateShifts(d: Disk, max: nat)
    requires max > 0 && forall i | i in d.files :: i < max
    ensures NoManifest(RotateOps(max, 0)) && Replay(d, RotateOps(max, 0)).manifest == d.manifest
    ensures Rotated(d.files, Replay(d, RotateOps(max, 0)).files, max)
  {
    RenamesShift(d, max, 0);
    var after := Replay(d, RotateOps(max, 0)).files;
    forall j: nat ensures FileAt(after, j) == if j < max then FileBelow(d.files, j) else None {
      assert FileAt(after, j) == if j == 0 || j >= max then None else FileBelow(d.files, j);
    }
  }

  /** Segment `j` is the former segment one index down, under its new index and file name. */
  predicate ShiftedFrom(s: Logger, t: Logger, j: nat)
    requires j in t.segments
  {
    j > 0 && j - 1 in s.segments && t.segments[j] == s.segments[j - 1].(index := j, file := j)
  }

  /**
   * Rotation is an exact shift: each retained segment moves up one index with its content, only the last
   * index is dropped, and the active segment starts anew.
   */
  lemma RotateKeeps(o: Options, s: Logger, d: Disk)
    requires InSync(o, s, d) && !s.poisoned && s.bytes > 0
    ensures var (t, ops, ok) := Rotate(o, s);
            && PhaseOk(o, d, t, ops, ok) && t.initialized == s.initialized
            && (ok <==> s.generation < MAX_SAFE_INTEGER)
            && (ok ==> ActiveOk(t) && 0 !in t.segments)
            && (forall j | j in t.segments :: ShiftedFrom(s, t, j))
            && (ok ==> Rotated(d.files, Replay(d, ops).files, MaxSegments(o)))
  {
    var ops := RotateOps(MaxSegments(o), 0);
    RotateShifts(d, MaxSegments(o));
    var next := ResetActive(s.(segments := Shifted(s.segments, MaxSegments(o))));
    RotationConsistent(o, s, d.files, Replay(d, ops).files);
    hide MaxSegments, Replay, RotateOps, Consistent, PersistAfter, Shifted, Rotated;
    PersistKeeps(o, next, d, ops);
  }

  lemma RotationConsistent(o: Options, s: Logger, files: map<nat, File>, after: map<nat, File>)
    requires Consistent(o, s, files) && Rotated(files, after, MaxSegments(o))
    ensures var next := ResetActive(s.(segments := Shifted(s.segments, MaxSegments(o))));
            && Consistent(o, next, after)
            && 0 !in next.segments
            && (forall j | j in next.segments :: ShiftedFrom(s, next, j))
  {
    hide SegmentsSound, MaxSegments, Rotated;
    RotationSound(o, s.segments, files, after);
  }

  lemma RotationSound(o: Options, segments: map<nat, Segment>, files: map<nat, File>, after: map<nat, File>)
    requires OptionsValid(o) && SegmentsSound(o, segments, files) && Rotated(files, after, MaxSegments(o))
    ensures SegmentsSound(o, Shifted(segments, MaxSegments(o)), after)
  {
    var max := MaxSegments(o);
    var shifted := Shifted(segments, max);
    forall j: nat ensures j in after <==> j in shifted {
      RotatedAt(files, after, max, j);
    }
    forall j | j in shifted ensures j < max && Sound(o, j, shifted[j], after[j]) {
      RotatedAt(files, after, max, j);
      assert Sound(o, j - 1, segments[j - 1], files[j - 1]);
    }
  }

  lemma RotatedAt(before: map<nat, File>, after: map<nat, File>, max: nat, j: nat)
    requires Rotated(before, after, max)
    ensures j in after <==> 0 < j < max && j - 1 in before
    ensures j in after ==> after[j] == before[j - 1]
  {
    assert FileAt(after, j) == if j < max then FileBelow(before, j) else None;
  }

  // ----------------------------------------------------------------- append

  lemma LinesBytesSnoc(lines: seq<Line>, line: Line)
    ensures LinesBytes(lines + [line]) == LinesBytes(lines) + LineBytes(line)
  {
    assert (lines + [line])[..|lines|] == lines;
  }

  /** A verified file with one more serialised record is a verified file with one more record. */
  lemma AppendVerifies(key: nat, file: File, record: AuditRecord, now: int)
    requires VerifySegment(key, file).Ok?
    ensures var records := VerifySegment(key, file).value;
            var entry := Serialize(key, record, now, records[|records| - 1].hash);
            VerifySegment(key, file.(lines := file.lines + [Stored(entry, 0)])) == Ok(records + [entry])
  {
    var records := VerifySegment(key, file).value;
    VerifySnoc(key, file.lines, Stored(Serialize(key, record, now, records[|records| - 1].hash), 0), Initial);
  }

  lemma FirstVerifies(key: nat, record: AuditRecord, now: int)
    ensures var entry := Serialize(key, record, now, Initial);
            VerifySegment(key, File([Stored(entry, 0)], 0)) == Ok([entry])
  {
    var line := Stored(Serialize(key, record, now, Initial), 0);
    VerifySnoc(key, [], line, Initial);
    assert [] + [line] == [line] && [] + [line.entry] == [line.entry];
  }

  lemma AppendReplays(d: Disk, entry: PersistedRecord)
    ensures NoManifest([Create(0), Append(0, Stored(entry, 0))])
    ensures Replay(d, [Create(0), Append(0, Stored(entry, 0))]) == d.(files := d.files[0 := Appended(d, entry)])
  {
    var create, append := Create(0), Append(0, Stored(entry, 0));
    var created := Apply(d, create);
    assert [create, append][1..] == [append] && [append][1..] == [];
    assert Replay(created, [append]) == Replay(Apply(created, append), []);
    assert [] + [Stored(entry, 0)] == [Stored(entry, 0)];
    assert Replay(d, [create, append]).files == d.files[0 := Appended(d, entry)];
  }

  /**
   * The append after the size check: the active file grows by exactly the serialised line and stays
   * within the segment limit, and the segment's description follows it.
   */
  lemma AppendKeeps(o: Options, s: Logger, d: Disk, record: AuditRecord, now: int)
    requires InSync(o, s, d) && !s.poisoned
    requires s.bytes + LineBytes(Stored(Serialize(o.key, record, now, s.previousHash), 0)) <= o.segmentMax
    ensures var (t, ops, ok) := AppendRecord(o, s, d, record, now);
            var entry := Serialize(o.key, record, now, s.previousHash);
            && PhaseOk(o, d, t, ops, ok) && t.initialized == s.initialized
            && (ok <==> s.generation < MAX_SAFE_INTEGER)
            && (forall i | i in t.segments :: i == 0 || (i in s.segments && t.segments[i] == s.segments[i]))
            && t.createdAt == (if s.createdAt.Some? then s.createdAt else Some(now))
            && 0 in t.segments && t.createdAt == Some(t.segments[0].createdAt)
            && (ok ==> Replay(d, ops).files == d.files[0 := Appended(d, entry)] && t.bytes == s.bytes + LineBytes(Stored(entry, 0)))
  {
    hide MaxSegments, Replay, Consistent, PersistAfter, Serialize, LineBytes, Appended, SegmentList;
    var entry := Serialize(o.key, record, now, s.previousHash);
    AppendReplays(d, entry);
    AppendConsistent(o, s, d, record, now);
    PersistKeeps(o, Grown(s, entry, now, Appended(d, entry)), d, [Create(0), Append(0, Stored(entry, 0))]);
  }

  lemma AppendConsistent(o: Options, s: Logger, d: Disk, record: AuditRecord, now: int)
    requires InSync(o, s, d)
    requires s.bytes + LineBytes(Stored(Serialize(o.key, record, now, s.previousHash), 0)) <= o.segmentMax
    ensures var entry := Serialize(o.key, record, now, s.previousHash);
            Consistent(o, Grown(s, entry, now, Appended(d, entry)), d.files[0 := Appended(d, entry)])
  {
    NewSegmentSound(o, s, d, record, now);
    hide MaxSegments, Sound, Serialize, SegmentList, LineBytes, SegmentsSound, Appended;
    var entry := Serialize(o.key, record, now, s.previousHash);
    PutSound(o, s.segments, d.files, Grown(s, entry, now, Appended(d, entry)).segments[0], Appended(d, entry));
  }

  lemma PutSound(o: Options, segments: map<nat, Segment>, files: map<nat, File>, segment: Segment, file: File)
    requires OptionsValid(o) && SegmentsSound(o, segments, files) && Sound(o, 0, segment, file)
    ensures SegmentsSound(o, segments[0 := segment], files[0 := file])
  {
    MaxSegmentsAtLeast(o);
  }

  lemma MaxSegmentsAtLeast(o: Options)
    requires OptionsValid(o)
    ensures MaxSegments(o) >= 2
  {
  }

  /** The new description of the active segment is the one a restart computes from the file. */
  lemma NewSegmentSound(o: Options, s: Logger, d: Disk, record: AuditRecord, now: int)
    requires InSync(o, s, d)
    requires s.bytes + LineBytes(Stored(Serialize(o.key, record, now, s.previousHash), 0)) <= o.segmentMax
    ensures var entry := Serialize(o.key, record, now, s.previousHash);
            Sound(o, 0, Grown(s, entry, now, Appended(d, entry)).segments[0], Appended(d, entry))
  {
    var entry := Serialize(o.key, record, now, s.previousHash);
    hide MaxSegments, VerifySegment, SegmentList;
    if 0 in s.segments {
      assert Sound(o, 0, s.segments[0], d.files[0]);
      var records := LoadSegment(o, d.files[0]).value;
      AppendVerifies(o.key, d.files[0], record, now);
      LinesBytesSnoc(d.files[0].lines, Stored(entry, 0));
      assert (records + [entry])[0] == records[0];
    } else {
      FirstVerifies(o.key, record, now);
      LinesBytesSnoc([], Stored(entry, 0));
      assert [] + [Stored(entry, 0)] == [Stored(entry, 0)];
    }
  }
}
