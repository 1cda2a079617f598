/** The `AuditLogger` class over its directory, loop by loop, proved against the specification of the log. */
module AuditLoggerModel {
  import opened Wrappers
  import opened Spec = Audit
  import opened AuditRecovery
  import opened AuditSteps
  import opened AuditRuns

  /** One rename: the segment below a free index takes that index. */
  function OneUp(segments: map<nat, Segment>, free: nat): map<nat, Segment> {
    if free in segments then segments[free + 1 := segments[free].(index := free + 1, file := free + 1)] - {free} else segments
  }

  /** The segment map part way through the renames, when an index is free. */
  ghost function SegmentsUp(segments: map<nat, Segment>, max: nat, free: nat): map<nat, Segment>
    requires free < max
    decreases max - free
  {
    if free == max - 1 then segments - {max - 1} else OneUp(SegmentsUp(segments, max, free + 1), free)
  }

  ghost function SegmentAt(segments: map<nat, Segment>, j: nat): Option<Segment> {
    if j in segments then Some(segments[j]) else None
  }

  ghost function SegmentFrom(segments: map<nat, Segment>, j: nat): Option<Segment> {
    if j > 0 && j - 1 in segments then Some(segments[j - 1].(index := j, file := j)) else None
  }

  lemma {:induction false} SegmentsUpAt(segments: map<nat, Segment>, max: nat, free: nat)
    requires free < max && forall i | i in segments :: i < max
    ensures forall j: nat :: SegmentAt(SegmentsUp(segments, max, free), j) ==
              if j < free then SegmentAt(segments, j) else if j == free || j >= max then None else SegmentFrom(segments, j)
    decreases max - free
  {
    var up := SegmentsUp(segments, max, free);
    if free < max - 1 {
      SegmentsUpAt(segments, max, free + 1);
      var before := SegmentsUp(segments, max, free + 1);
      forall j: nat ensures SegmentAt(up, j) ==
        if j < free then SegmentAt(segments, j) else if j == free || j >= max then None else SegmentFrom(segments, j)
      {
        assert SegmentAt(before, j) ==
          if j < free + 1 then SegmentAt(segments, j) else if j == free + 1 || j >= max then None else SegmentFrom(segments, j);
        assert SegmentAt(before, free) == SegmentAt(segments, free);
      }
    }
  }

  /** The renaming loop computes the shift. */
  lemma LoopShifts(segments: map<nat, Segment>, max: nat)
    requires max > 0 && forall i | i in segments :: i < max
    ensures SegmentsUp(segments, max, 0) == Shifted(segments, max)
  {
    SegmentsUpAt(segments, max, 0);
    var up, shifted := SegmentsUp(segments, max, 0), Shifted(segments, max);
    forall j: nat ensures SegmentAt(up, j) == SegmentAt(shifted, j) {
      assert SegmentAt(up, j) == if j == 0 || j >= max then None else SegmentFrom(segments, j);
    }
    forall j: nat ensures j in up <==> j in shifted {
      assert SegmentAt(up, j) == SegmentAt(shifted, j);
    }
    forall j | j in up ensures up[j] == shifted[j] {
      assert SegmentAt(up, j) == SegmentAt(shifted, j);
    }
  }

  /** The list holds the segments of these indices. */
  ghost predicate ListsSegments(segments: map<nat, Segment>, list: seq<Segment>, indices: seq<nat>) {
    |list| == |indices| && forall k | 0 <= k < |list| :: indices[k] in segments && list[k] == segments[indices[k]]
  }

  lemma ListsNone(segments: map<nat, Segment>)
    ensures ListsSegments(segments, [], [])
  {
  }

  lemma ListsOneMore(segments: map<nat, Segment>, list: seq<Segment>, indices: seq<nat>, i: nat)
    requires ListsSegments(segments, list, indices) && i in segments
    ensures ListsSegments(segments, list + [segments[i]], indices + [i])
  {
  }

  lemma ListsAll(segments: map<nat, Segment>, list: seq<Segment>)
    requires ListsSegments(segments, list, IndexList(segments.Keys, AUDIT_MAX_SEGMENTS))
    ensures list == SegmentList(segments)
  {
  }

  /** One step of the loops that list indices in ascending order. */
  lemma IndexListStep(keys: set<nat>, i: nat)
    ensures IndexList(keys, 0) == []
    ensures IndexList(keys, i + 1) == if i in keys then IndexList(keys, i) + [i] else IndexList(keys, i)
  {
    assert IndexList(keys, i) + [] == IndexList(keys, i);
  }

  /** One step of the removal loop. */
  lemma UnlinkOpsStep(segments: map<nat, Segment>, now: int, i: nat)
    requires i < AUDIT_MAX_SEGMENTS
    ensures UnlinkOps(segments, now, i) ==
            if i in segments && Expired(segments[i].createdAt, now) then UnlinkOps(segments, now, i + 1) + [Unlink(i)]
            else UnlinkOps(segments, now, i + 1)
  {
    assert UnlinkOps(segments, now, i + 1) + [] == UnlinkOps(segments, now, i + 1);
  }

  lemma UnlinkOpsStart(segments: map<nat, Segment>, now: int)
    ensures UnlinkOps(segments, now, AUDIT_MAX_SEGMENTS) == []
  {
  }

  /** One step of the renaming loop. */
  lemma RotateOpsStep(segments: map<nat, Segment>, max: nat, free: nat)
    requires free + 1 < max
    ensures RotateOps(max, free) == RotateOps(max, free + 1) + [Rename(free, free + 1)]
    ensures SegmentsUp(segments, max, free) == OneUp(SegmentsUp(segments, max, free + 1), free)
  {
  }

  lemma RotateOpsStart(segments: map<nat, Segment>, max: nat)
    requires max > 0
    ensures RotateOps(max, max - 1) == [Unlink(max - 1)] && SegmentsUp(segments, max, max - 1) == segments - {max - 1}
  {
  }

  /** The operations between two moments of the disk and its history. */
  ghost predicate Done(d: Disk, before: seq<Op>, ops: seq<Op>, e: Disk, after: seq<Op>) {
    after == before + ops && e == Replay(d, ops)
  }

  lemma DoneNothing(d: Disk, before: seq<Op>)
    ensures Done(d, before, [], d, before)
  {
  }

  lemma DoneOne(d: Disk, before: seq<Op>, op: Op)
    ensures Done(d, before, [op], Apply(d, op), before + [op])
  {
    assert [op][1..] == [];
    assert Replay(Apply(d, op), []) == Apply(d, op);
  }

  lemma DoneMeans(d: Disk, before: seq<Op>, ops: seq<Op>, e: Disk, after: seq<Op>)
    requires Done(d, before, ops, e, after)
    ensures e == Replay(d, ops)
  {
  }

  lemma DoneThen(d: Disk, before: seq<Op>, a: seq<Op>, e: Disk, middle: seq<Op>, b: seq<Op>, f: Disk, after: seq<Op>)
    requires Done(d, before, a, e, middle) && Done(e, middle, b, f, after)
    ensures Done(d, before, a + b, f, after)
  {
    ReplayConcat(d, a, b);
  }

  /** The segments left when the removal loop has come down to an index. */
  ghost function PartlyExpired(segments: map<nat, Segment>, now: int, i: nat): map<nat, Segment> {
    map k | k in segments && (k < i || !Expired(segments[k].createdAt, now)) :: segments[k]
  }

  /** The removal loop has something to do exactly when not every segment is kept. */
  lemma UnexpiredAll(segments: map<nat, Segment>, now: int)
    requires forall i | i in segments :: i < AUDIT_MAX_SEGMENTS
    ensures Unexpired(segments, now) == segments <==> UnlinkOps(segments, now, 0) == []
  {
    UnlinksExpired(EmptyDisk, segments, now, 0);
    var gone := ExpiredFrom(segments, now, 0);
    if gone == {} {
      forall i | i in segments ensures !Expired(segments[i].createdAt, now) {
        assert i !in gone;
      }
    } else {
      var i :| i in gone;
      assert i !in Unexpired(segments, now);
    }
  }

  lemma PartlyExpiredStep(segments: map<nat, Segment>, now: int, i: nat)
    ensures PartlyExpired(segments, now, i) ==
            if i in segments && Expired(segments[i].createdAt, now) then PartlyExpired(segments, now, i + 1) - {i}
            else PartlyExpired(segments, now, i + 1)
  {
  }

  lemma PartlyExpiredEnds(segments: map<nat, Segment>, now: int)
    requires forall i | i in segments :: i < AUDIT_MAX_SEGMENTS
    ensures PartlyExpired(segments, now, AUDIT_MAX_SEGMENTS) == segments
    ensures PartlyExpired(segments, now, 0) == Unexpired(segments, now)
  {
  }

  /** What agreement with the disk means for the segment map. */
  lemma InSyncKeys(o: Options, s: Logger, d: Disk)
    requires InSync(o, s, d)
    ensures OptionsValid(o) && s.segments.Keys == d.files.Keys && (s.bytes > 0 ==> 0 in s.segments)
    ensures forall i | i in s.segments :: i < MaxSegments(o)
    ensures forall i | i in s.segments :: i < AUDIT_MAX_SEGMENTS
  {
    MaxSegmentsAtMost(o);
  }

  lemma CreatedAndAppended(d: Disk, entry: PersistedRecord)
    ensures 0 in Apply(d, Create(0)).files
    ensures var appended := Apply(Apply(d, Create(0)), Append(0, Stored(entry, 0)));
            0 in appended.files && appended.files[0] == Appended(d, entry)
    ensures [Create(0)] + [Append(0, Stored(entry, 0))] == [Create(0), Append(0, Stored(entry, 0))]
  {
    assert [] + [Stored(entry, 0)] == [Stored(entry, 0)];
  }

  /** After a finished expiry or rotation the log agrees with its disk, so the next phase may start. */
  lemma ExpiryReady(o: Options, s: Logger, d: Disk, now: int)
    requires InSync(o, s, d) && !s.poisoned
    ensures var (t, ops, ok) := Expire(o, s, now);
            ok ==> InSync(o, t, Replay(d, ops)) && !t.poisoned && t.initialized == s.initialized
  {
    ExpireKeeps(o, s, d, now);
  }

  lemma RotationReady(o: Options, s: Logger, d: Disk)
    requires InSync(o, s, d) && !s.poisoned && s.bytes > 0
    ensures var (t, ops, ok) := Rotate(o, s);
            ok ==> InSync(o, t, Replay(d, ops)) && t.bytes == 0
  {
    RotateKeeps(o, s, d);
  }

  /** What loading established is what expiry at start-up needs. */
  lemma StartedOk(o: Options, s: Logger, d: Disk, now: int)
    requires OptionsValid(o) && Load(o, d) == Ok(s) && d != EmptyDisk
    ensures s.segments.Keys == d.files.Keys && forall i | i in s.segments :: i < AUDIT_MAX_SEGMENTS
    ensures var (t, ops, error) := Spec.Initialize(o, d, now);
            && (t, ops, error) == (var (u, more, ok) := Expire(o, s, now);
                                   if ok then (u.(initialized := true), more, None) else (u, more, Some(GenerationExhausted)))
            && (error == None ==> InSync(o, t, Replay(d, ops)) && !t.poisoned)
  {
    hide Load, Expire;
    LoadGivesInSync(o, d);
    LoadedNotPoisoned(o, d);
    InSyncKeys(o, s, d);
    hide InSync;
    ExpiryReady(o, s, d, now);
    var (u, ops, ok) := Expire(o, s, now);
    if ok {
      StartedInSync(o, u, Replay(d, ops), now);
    }
  }

  lemma LoadedNotPoisoned(o: Options, d: Disk)
    requires OptionsValid(o) && Load(o, d).Ok?
    ensures !Load(o, d).value.poisoned && !Load(o, d).value.initialized
  {
    LoadGivesInSync(o, d);
    LoadsBack(o, Load(o, d).value, d);
  }

  /** The fields of the class and the directory it owns. `trace` is the history of its disk operations. */
  class AuditLogger {
    const options: Options
    var previousHash: Hash
    var createdAt: Option<int>
    var bytes: nat
    var generation: nat
    var segments: map<nat, Segment>
    var initialized: bool
    var poisoned: bool
    var disk: Disk
    ghost var trace: seq<Op>

    constructor (options: Options, disk: Disk)
      requires OptionsValid(options)
      ensures View() == NewLogger() && this.options == options && this.disk == disk && trace == []
    {
      this.options, this.disk := options, disk;
      previousHash, createdAt, bytes, generation := Initial, None, 0, 0;
      segments, initialized, poisoned := map[], false, false;
      trace := [];
    }

    function View(): Logger
      reads this
    {
      Logger(previousHash, createdAt, bytes, generation, segments, initialized, poisoned)
    }

    /** A logger in use agrees with its directory. */
    ghost predicate Valid()
      reads this
    {
      OptionsValid(options) && (initialized && !poisoned ==> InSync(options, View(), disk))
    }

    /** The operations since an earlier state. */
    twostate predicate Did(ops: seq<Op>)
      reads this
    {
      Done(old(disk), old(trace), ops, disk, trace)
    }

    method Do(op: Op)
      modifies this`disk, this`trace
      ensures disk == Apply(old(disk), op) && Did([op])
    {
      DoneOne(disk, trace, op);
      disk := Apply(disk, op);
      trace := trace + [op];
    }

    // ------------------------------------------------------- verification

    method VerifySegment(file: File) returns (result: Result<seq<PersistedRecord>, Error>)
      ensures result == Spec.VerifySegment(options.key, file)
    {
      if file.lines == [] || file.torn > 0 {
        return Err(EmptyOrTruncated);
      }
      if Blank in file.lines {
        return Err(BlankRecord);
      }
      var records: seq<PersistedRecord>, expected := [], Initial;
      var lines := file.lines;
      var i := 0;
      ghost var whole := VerifyLines(options.key, lines, Initial);
      assert lines[0..] == lines && (whole.Ok? ==> [] + whole.value == whole.value);
      while i < |lines|
        invariant 0 <= i <= |lines|
        invariant var rest := VerifyLines(options.key, lines[i..], expected);
                  whole == if rest.Ok? then Ok(records + rest.value) else rest
      {
        if !lines[i].Stored? {
          return Err(MalformedRecord);
        }
        var entry := lines[i].entry;
        if entry.previousHash != expected {
          return Err(BrokenChain);
        }
        if entry.hash != RecordMac(options.key, entry.record, entry.timestamp, entry.previousHash) {
          return Err(RecordMacMismatch);
        }
        assert lines[i..][1..] == lines[i + 1..];
        ghost var rest := VerifyLines(options.key, lines[i + 1..], entry.hash);
        assert rest.Ok? ==> records + ([entry] + rest.value) == (records + [entry]) + rest.value;
        records := records + [entry];
        expected := entry.hash;
        i := i + 1;
      }
      assert VerifyLines(options.key, lines[i..], expected) == Ok([]) && records + [] == records;
      return Ok(records);
    }

    method LoadAndVerifySegment(file: File) returns (result: Result<seq<PersistedRecord>, Error>)
      ensures result == LoadSegment(options, file)
    {
      if FileBytes(file) > options.segmentMax {
        return Err(SegmentSizeExceeded);
      }
      result := VerifySegment(file);
    }

    /** The names in the directory come in no particular order. */
    method DiscoverSegmentIndices() returns (result: Result<seq<nat>, Error>)
      requires OptionsValid(options)
      ensures result == if exists i | i in disk.files :: i >= MaxSegments(options) then Err(SegmentUnexpected)
                        else Ok(IndexList(disk.files.Keys, AUDIT_MAX_SEGMENTS))
    {
      var names, indices: set<nat> := disk.files.Keys, {};
      while names != {}
        invariant names + indices == disk.files.Keys
        invariant forall i | i in indices :: i < MaxSegments(options)
        decreases names
      {
        var i: nat :| i in names;
        names := names - {i};
        if i >= MaxSegments(options) {
          assert i in disk.files;
          return Err(SegmentUnexpected);
        }
        indices := indices + {i};
      }
      assert indices == disk.files.Keys;
      return Ok(IndexList(indices, AUDIT_MAX_SEGMENTS));
    }

    /** The loops of `validateManifestLayout`: order first, then the set, then each entry. */
    method ValidateManifestLayout(m: Manifest, discovered: seq<nat>) returns (error: Option<Error>)
      requires OptionsValid(options)
      ensures error == LayoutError(options, m, discovered)
    {
      var k := 1;
      while k < |m.segments|
        invariant 1 <= k && (k <= |m.segments| || m.segments == [])
        invariant forall a | 0 < a < k && a < |m.segments| :: m.segments[a - 1].index < m.segments[a].index
      {
        if m.segments[k - 1].index >= m.segments[k].index {
          return Some(ManifestOrder);
        }
        k := k + 1;
      }
      if discovered != Indices(m.segments) {
        return Some(SegmentSetMismatch);
      }
      k := 0;
      while k < |m.segments|
        invariant 0 <= k <= |m.segments|
        invariant forall a | 0 <= a < k ::
                    m.segments[a].index < MaxSegments(options) && m.segments[a].file == m.segments[a].index
                    && m.segments[a].bytes <= options.segmentMax
      {
        var segment := m.segments[k];
        if segment.index >= MaxSegments(options) || segment.file != segment.index || segment.bytes > options.segmentMax {
          return Some(InvalidSegmentFile);
        }
        k := k + 1;
      }
      return None;
    }

    // ----------------------------------------------------------- manifest

    method SortedSegments() returns (list: seq<Segment>)
      ensures list == SegmentList(segments)
    {
      list := [];
      var i := 0;
      IndexListStep(segments.Keys, 0);
      ListsNone(segments);
      hide IndexList, ListsSegments, SegmentList;
      while i < AUDIT_MAX_SEGMENTS
        invariant 0 <= i <= AUDIT_MAX_SEGMENTS
        invariant ListsSegments(segments, list, IndexList(segments.Keys, i))
      {
        IndexListStep(segments.Keys, i);
        if i in segments {
          ListsOneMore(segments, list, IndexList(segments.Keys, i), i);
          list := list + [segments[i]];
        }
        i := i + 1;
      }
      ListsAll(segments, list);
    }

    method PersistManifest() returns (written: bool)
      modifies this`generation, this`disk, this`trace
      ensures var (s, ops, ok) := Persist(options, old(View()));
              View() == s && written == ok && Did(ops)
    {
      DoneNothing(disk, trace);
      if generation >= MAX_SAFE_INTEGER {
        return false;
      }
      var list := SortedSegments();
      Do(PutManifest(Signed(options.key, generation + 1, list)));
      generation := generation + 1;
      return true;
    }

    /** Persists after the given operations changed segment files; a failure poisons the logger. */
    method PersistChange(ghost d: Disk, ghost before: seq<Op>, ghost ops: seq<Op>) returns (done: bool)
      requires Done(d, before, ops, disk, trace)
      modifies this`generation, this`disk, this`trace, this`poisoned
      ensures var (s, all, ok) := PersistAfter(options, old(View()), ops);
              View() == s && done == ok && Done(d, before, all, disk, trace)
    {
      ghost var changed, so := disk, trace;
      ghost var written := Persist(options, View()).1;
      done := PersistManifest();
      DoneThen(d, before, ops, changed, so, written, disk, trace);
      if !done {
        poisoned := true;
        assert ops + [] == ops;
      }
    }

    // ------------------------------------------------------------- expiry

    method ResetActiveSegment()
      modifies this`previousHash, this`createdAt, this`bytes
      ensures View() == ResetActive(old(View()))
    {
      previousHash, createdAt, bytes := Initial, None, 0;
    }

    /** The removal loop, highest index first. Every segment it knows is on disk, so no removal can fail. */
    method UnlinkExpired(now: int) returns (changed: bool)
      requires segments.Keys == disk.files.Keys && forall i | i in segments :: i < AUDIT_MAX_SEGMENTS
      modifies this`segments, this`disk, this`trace, this`previousHash, this`createdAt, this`bytes
      ensures var ops := UnlinkOps(old(segments), now, 0);
              Did(ops) && changed == (ops != [])
      ensures View() == Kept(old(View()), now)
    {
      changed := false;
      ghost var start, d, before := View(), disk, trace;
      var entries := segments;
      var i := AUDIT_MAX_SEGMENTS;
      PartlyExpiredEnds(entries, now);
      UnlinkOpsStart(entries, now);
      DoneNothing(disk, trace);
      hide UnlinkOps, PartlyExpired, Unexpired, Expired, Done;
      while i > 0
        invariant 0 <= i <= AUDIT_MAX_SEGMENTS
        invariant segments == PartlyExpired(entries, now, i)
        invariant forall k | k in entries && k < i :: k in segments
        invariant segments.Keys == disk.files.Keys && segments.Keys <= entries.Keys
        invariant Done(d, before, UnlinkOps(entries, now, i), disk, trace)
        invariant changed <==> segments != entries
        invariant (previousHash, createdAt, bytes) ==
                  if 0 in entries && 0 !in segments then (Initial, None, 0) else (start.previousHash, start.createdAt, start.bytes)
      {
        i := i - 1;
        PartlyExpiredStep(entries, now, i);
        UnlinkOpsStep(entries, now, i);
        if i in entries && Expired(entries[i].createdAt, now) {
          assert i in disk.files;
          ghost var e, middle := disk, trace;
          Do(Unlink(i));
          DoneThen(d, before, UnlinkOps(entries, now, i + 1), e, middle, [Unlink(i)], disk, trace);
          segments := segments - {i};
          changed := true;
          if i == 0 {
            ResetActiveSegment();
          }
        }
      }
      UnexpiredAll(entries, now);
    }

    method RemoveExpiredSegments(now: int) returns (done: bool)
      requires segments.Keys == disk.files.Keys && forall i | i in segments :: i < AUDIT_MAX_SEGMENTS
      modifies this`segments, this`disk, this`trace, this`previousHash, this`createdAt, this`bytes, this`generation, this`poisoned
      ensures var (s, ops, ok) := Expire(options, old(View()), now);
              View() == s && done == ok && Did(ops)
    {
      hide UnlinkOps, Unexpired, PersistAfter, Done;
      ghost var d, before, ops := disk, trace, UnlinkOps(segments, now, 0);
      UnexpiredAll(segments, now);
      var changed := UnlinkExpired(now);
      if !changed {
        return true;
      }
      done := PersistChange(d, before, ops);
    }

    // ----------------------------------------------------------- rotation

    method RenameSegments()
      requires OptionsValid(options) && bytes > 0 && 0 in segments
      requires segments.Keys == disk.files.Keys && forall i | i in segments :: i < MaxSegments(options)
      modifies this`segments, this`disk, this`trace
      ensures segments == Shifted(old(segments), MaxSegments(options))
      ensures Did(RotateOps(MaxSegments(options), 0))
    {
      var max := MaxSegments(options);
      ghost var d, before, entries := disk, trace, segments;
      LoopShifts(entries, max);
      RotateOpsStart(entries, max);
      hide RotateOps, SegmentsUp, Shifted, MaxSegments, Done;
      var index := max - 1;
      Do(Unlink(index));
      segments := segments - {index};
      while index >= 1
        invariant 0 <= index < max
        invariant index !in segments && segments.Keys == disk.files.Keys
        invariant index >= 1 ==> 0 in segments
        invariant segments == SegmentsUp(entries, max, index) && Done(d, before, RotateOps(max, index), disk, trace)
      {
        RotateOpsStep(entries, max, index - 1);
        ghost var e, middle := disk, trace;
        RenameOne(index);
        DoneThen(d, before, RotateOps(max, index), e, middle, [Rename(index - 1, index)], disk, trace);
        index := index - 1;
      }
    }

    /** One rename, with the segment map following the file. A known segment is never missing on disk. */
    method RenameOne(index: nat)
      requires 0 < index && index !in segments && 0 in segments && segments.Keys == disk.files.Keys
      modifies this`segments, this`disk, this`trace
      ensures segments == OneUp(old(segments), index - 1) && Did([Rename(index - 1, index)])
      ensures segments.Keys == disk.files.Keys && index - 1 !in segments
      ensures index > 1 ==> 0 in segments
    {
      hide Done;
      var found := index - 1 in disk.files;
      Do(Rename(index - 1, index));
      if found {
        if index - 1 !in segments {
          assert false;
        }
        segments := segments[index := segments[index - 1].(index := index, file := index)];
        segments := segments - {index - 1};
      } else if index - 1 in segments || index == 1 {
        assert false;
      }
    }

    method RotateCurrentSegment() returns (done: bool)
      requires OptionsValid(options) && (bytes > 0 ==> 0 in segments)
      requires segments.Keys == disk.files.Keys && forall i | i in segments :: i < MaxSegments(options)
      modifies this`segments, this`disk, this`trace, this`previousHash, this`createdAt, this`bytes, this`generation, this`poisoned
      ensures var (s, ops, ok) := Rotate(options, old(View()));
              View() == s && done == ok && Did(ops)
    {
      hide RotateOps, Shifted, PersistAfter, MaxSegments, Done;
      if bytes == 0 {
        ResetActiveSegment();
        DoneNothing(disk, trace);
        return true;
      }
      ghost var d, before, ops := disk, trace, RotateOps(MaxSegments(options), 0);
      RenameSegments();
      ResetActiveSegment();
      done := PersistChange(d, before, ops);
    }

    // ------------------------------------------------------------- record

    /** Opens the active file and appends; the size checks of the source cannot fire on a log that agrees with its disk. */
    method WriteLine(line: Line)
      requires InSync(options, View(), disk) && bytes + LineBytes(line) <= options.segmentMax && line.Stored? && line.padding == 0
      modifies this`disk, this`trace
      ensures Did([Create(0), Append(0, line)])
      ensures 0 in disk.files && disk.files[0] == Appended(old(disk), line.entry)
    {
      ghost var d, before := disk, trace;
      ActiveSize(options, View(), disk);
      CreatedAndAppended(disk, line.entry);
      hide InSync, Done, LineBytes, FileBytes, Apply, Appended;
      Do(Create(0));
      ghost var e, middle := disk, trace;
      var size := FileBytes(disk.files[0]);
      if size != bytes {
        assert false;
      }
      if size + LineBytes(line) > options.segmentMax {
        assert false;
      }
      Do(Append(0, line));
      DoneThen(d, before, [Create(0)], e, middle, [Append(0, line)], disk, trace);
    }

    /** The fields follow the appended line, with the digest read back from the file. */
    method GrowSegment(entry: PersistedRecord, now: int)
      requires 0 in disk.files
      modifies this`segments, this`previousHash, this`createdAt, this`bytes
      ensures View() == Grown(old(View()), entry, now, disk.files[0])
    {
      hide LineBytes;
      if createdAt == None {
        createdAt := Some(now);
      }
      bytes := bytes + LineBytes(Stored(entry, 0));
      previousHash := entry.hash;
      var count: nat, first := 0, entry.hash;
      if 0 in segments {
        count, first := segments[0].recordCount, segments[0].firstHash;
      }
      segments := segments[0 := Segment(0, 0, createdAt.value, bytes, count + 1, first, entry.hash, Sha256(disk.files[0]))];
    }

    method AppendLine(record: AuditRecord, now: int) returns (done: bool)
      requires InSync(options, View(), disk)
      requires bytes + LineBytes(Stored(Serialize(options.key, record, now, previousHash), 0)) <= options.segmentMax
      modifies this`segments, this`disk, this`trace, this`previousHash, this`createdAt, this`bytes, this`generation, this`poisoned
      ensures var (s, ops, ok) := AppendRecord(options, old(View()), old(disk), record, now);
              View() == s && done == ok && Did(ops)
    {
      hide InSync, Done, LineBytes, PersistAfter, Grown, Appended, Serialize;
      ghost var d, before := disk, trace;
      var entry := Serialize(options.key, record, now, previousHash);
      WriteLine(Stored(entry, 0));
      GrowSegment(entry, now);
      done := PersistChange(d, before, [Create(0), Append(0, Stored(entry, 0))]);
    }

    method Record(raw: RawRecord, now: int) returns (outcome: Outcome)
      requires Valid()
      modifies this
      ensures var (s, ops, result) := Spec.Record(options, old(View()), old(disk), raw, now);
              View() == s && outcome == result && Did(ops)
      ensures Valid()
    {
      DoneNothing(disk, trace);
      if !initialized {
        return Failed(NotInitialized);
      }
      if poisoned {
        return Failed(Unavailable);
      }
      if raw.InvalidRecord? {
        return Failed(RecordInvalid);
      }
      ghost var start, d, before := View(), disk, trace;
      hide InSync, Expire, Enter, CrashSafe, Done;
      RecordKeeps(options, start, d, raw, now);
      ExpiryReady(options, start, d, now);
      InSyncKeys(options, start, d);
      var done := RemoveExpiredSegments(now);
      if !done {
        return Failed(GenerationExhausted);
      }
      ghost var kept, e, middle := View(), disk, trace;
      ghost var ops := Expire(options, start, now).1;
      DoneMeans(d, before, ops, e, middle);
      outcome := EnterRecord(raw.record, now);
      DoneThen(d, before, ops, e, middle, Enter(options, kept, e, raw.record, now).1, disk, trace);
      DoneMeans(d, before, Spec.Record(options, start, d, raw, now).1, disk, trace);
    }

    /** The part of `record` after expiry. */
    method EnterRecord(record: AuditRecord, now: int) returns (outcome: Outcome)
      requires InSync(options, View(), disk) && !poisoned
      modifies this
      ensures var (s, ops, result) := Enter(options, old(View()), old(disk), record, now);
              View() == s && outcome == result && Did(ops)
    {
      ghost var start, d, before := View(), disk, trace;
      InSyncKeys(options, start, d);
      DoneNothing(d, before);
      hide InSync, Done, Rotate, AppendRecord, LineBytes, Serialize;
      var serialized := Serialize(options.key, record, now, previousHash);
      var size := LineBytes(Stored(serialized, 0));
      if size > options.segmentMax {
        return Failed(RecordTooLarge);
      }
      var done: bool;
      if bytes > 0 && bytes + size > options.segmentMax {
        RotationReady(options, start, d);
        done := RotateCurrentSegment();
        ghost var ops, rotated, e, middle := Rotate(options, start).1, View(), disk, trace;
        if !done {
          return Failed(GenerationExhausted);
        }
        DoneMeans(d, before, ops, e, middle);
        ReserialisedLength(options.key, record, now, start.previousHash, previousHash);
        done := AppendLine(record, now);
        DoneThen(d, before, ops, e, middle, AppendRecord(options, rotated, e, record, now).1, disk, trace);
      } else {
        done := AppendLine(record, now);
      }
      return if done then Recorded else Failed(GenerationExhausted);
    }

    // --------------------------------------------------------- initialize

    method Initialize(now: int) returns (error: Option<Error>)
      requires OptionsValid(options) && (initialized || View() == NewLogger())
      modifies this
      ensures old(initialized) ==> error == Some(AlreadyInitialized) && View() == old(View()) && Did([])
      ensures !old(initialized) ==>
                var (s, ops, e) := Spec.Initialize(options, old(disk), now);
                && error == e && Did(ops) && View() == s
                && (e == None ==> Valid())
    {
      DoneNothing(disk, trace);
      ghost var d, before := disk, trace;
      if initialized {
        return Some(AlreadyInitialized);
      }
      var discovered := DiscoverSegmentIndices();
      if discovered.Err? {
        return Some(discovered.error);
      }
      match disk.manifest {
        case Missing =>
          if disk.files != map[] {
            return Some(ManifestMissing);
          }
          FirstManifest(options, now);
          var _ := PersistManifest();
          initialized := true;
          return None;
        case Corrupt =>
          return Some(ManifestInvalid);
        case Written(m) =>
          if !ManifestWellFormed(m) {
            return Some(ManifestInvalid);
          }
          if m.hmac != ManifestMac(options.key, m.generation, m.segments) {
            return Some(ManifestMacMismatch);
          }
          var layout := ValidateManifestLayout(m, discovered.value);
          if layout.Some? {
            return layout;
          }
          generation := m.generation;
          var failure := AdoptSegments(m.segments);
          if failure.Some? {
            return failure;
          }
      }
      StartedOk(options, View(), disk, now);
      var done := RemoveExpiredSegments(now);
      if !done {
        return Some(GenerationExhausted);
      }
      initialized := true;
      return None;
    }

    /** The loading loop of `initialize`. */
    method AdoptSegments(expected: seq<Segment>) returns (failure: Option<Error>)
      requires OptionsValid(options)
      modifies this`segments, this`createdAt, this`previousHash, this`bytes
      ensures View() == LoadedFields(options, disk.files, expected, old(View()), 0)
      ensures match LoadSegments(options, disk.files, expected, old(View()), 0)
              case Ok(s) => failure == None && View() == s
              case Err(e) => failure == Some(e)
    {
      ghost var start := View();
      var total: nat, k := 0, 0;
      while k < |expected|
        invariant 0 <= k <= |expected|
        invariant LoadSegments(options, disk.files, expected[k..], View(), total) == LoadSegments(options, disk.files, expected, start, 0)
        invariant LoadedFields(options, disk.files, expected[k..], View(), total) == LoadedFields(options, disk.files, expected, start, 0)
      {
        var e := expected[k];
        assert expected[k..][0] == e && expected[k..][1..] == expected[k + 1..];
        if e.index !in disk.files {
          return Some(MissingSegment);
        }
        var loaded := LoadAndVerifySegment(disk.files[e.index]);
        if loaded.Err? {
          return Some(loaded.error);
        }
        var actual := Summary(e.index, disk.files[e.index], loaded.value);
        if actual != e {
          return Some(SegmentMismatch);
        }
        segments := segments[e.index := actual];
        total := total + actual.bytes;
        if total > options.totalMax {
          return Some(TotalSizeExceeded);
        }
        if e.index == 0 {
          createdAt, previousHash, bytes := Some(actual.createdAt), actual.lastHash, actual.bytes;
        }
        k := k + 1;
      }
      return None;
    }
  }
}
