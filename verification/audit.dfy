/**
 * The crash-safe audit log. Records form a hash chain inside each segment file; a signed manifest
 * names the segments and is replaced atomically after every change of the segment files. Hashes,
 * message authentication codes and digests are symbolic, so they are injective and cannot be forged.
 */
module Audit {
  import opened Wrappers
  import opened Bytes

  const RETENTION_MS: nat := 2_592_000_000
  const AUDIT_SEGMENT_MAX_BYTES: nat := 1_048_576
  const AUDIT_TOTAL_MAX_BYTES: nat := 4_194_304
  const AUDIT_MAX_SEGMENTS: nat := 4
  const MAX_SAFE_INTEGER: nat := 9_007_199_254_740_991

  datatype Options = Options(key: nat, segmentMax: nat, totalMax: nat)

  /** What the constructor accepts. */
  predicate OptionsValid(o: Options) {
    && 512 <= o.segmentMax <= AUDIT_SEGMENT_MAX_BYTES
    && 512 <= o.totalMax <= AUDIT_TOTAL_MAX_BYTES
    && o.segmentMax * 2 <= o.totalMax
  }

  function MaxSegments(o: Options): (max: nat)
    requires OptionsValid(o)
    ensures 2 <= max <= AUDIT_MAX_SEGMENTS && max * o.segmentMax <= o.totalMax
  {
    var fitting := o.totalMax / o.segmentMax;
    Fits(o.totalMax, o.segmentMax);
    if fitting < AUDIT_MAX_SEGMENTS then fitting else AUDIT_MAX_SEGMENTS
  }

  lemma Fits(total: nat, segment: nat)
    requires 0 < segment && segment * 2 <= total
    ensures 2 <= total / segment && (total / segment) * segment <= total
    ensures total / segment >= AUDIT_MAX_SEGMENTS ==> AUDIT_MAX_SEGMENTS * segment <= total
  {
    var q := total / segment;
    assert total == q * segment + total % segment;
    if q >= AUDIT_MAX_SEGMENTS {
      assert (q - AUDIT_MAX_SEGMENTS) * segment >= 0;
    }
  }

  // ---------------------------------------------------------------- records

  /** A validated record, as the JSON text of its fields in the order the logger writes them. */
  datatype AuditRecord = AuditRecord(json: seq<byte>)

  /** What a caller passes: schema validation either refuses it or yields a record. */
  datatype RawRecord = InvalidRecord | ValidRecord(record: AuditRecord)

  /** The keyed hash of a record with its timestamp and the hash before it; the chain starts at zeros. */
  datatype Hash = Initial | RecordMac(key: nat, record: AuditRecord, timestamp: int, previous: Hash)

  datatype PersistedRecord = PersistedRecord(record: AuditRecord, timestamp: int, previousHash: Hash, hash: Hash)

  /** One line of a segment file. A stored record may carry insignificant white space the logger never writes. */
  datatype Line = Blank | Malformed(length: nat) | Stored(entry: PersistedRecord, padding: nat)

  /** A segment file: complete lines, then the bytes of an unfinished one. */
  datatype File = File(lines: seq<Line>, torn: nat)

  /** An ISO timestamp has 24 characters in the years 0 to 9999 and 27 outside of them. */
  function TimestampBytes(time: int): nat {
    if -62_167_219_200_000 <= time < 253_402_300_800_000 then 24 else 27
  }

  /** The bytes of a line with its newline: the JSON fields, the timestamp, two hashes and their keys. */
  function LineBytes(line: Line): (bytes: nat)
    ensures bytes > 0
  {
    match line
    case Blank => 1
    case Malformed(length) => length + 1
    case Stored(entry, padding) => |entry.record.json| + TimestampBytes(entry.timestamp) + 172 + padding
  }

  function LinesBytes(lines: seq<Line>): nat {
    if lines == [] then 0 else LinesBytes(lines[..|lines| - 1]) + LineBytes(lines[|lines| - 1])
  }

  function FileBytes(file: File): nat {
    LinesBytes(file.lines) + file.torn
  }

  /** `serializeRecord`: the line for a record at this time after this hash. */
  function Serialize(key: nat, record: AuditRecord, now: int, previous: Hash): PersistedRecord {
    PersistedRecord(record, now, previous, RecordMac(key, record, now, previous))
  }

  datatype Error =
    | AlreadyInitialized | NotInitialized | Unavailable | RecordInvalid | RecordTooLarge | GenerationExhausted
    | ManifestMissing | ManifestInvalid | ManifestMacMismatch | ManifestOrder | SegmentSetMismatch | SegmentUnexpected
    | InvalidSegmentFile | MissingSegment | SegmentSizeExceeded | SegmentMismatch | TotalSizeExceeded
    | EmptyOrTruncated | BlankRecord | MalformedRecord | BrokenChain | RecordMacMismatch

  /** The record loop of `verifySegment`, from the hash expected next. */
  function VerifyLines(key: nat, lines: seq<Line>, expected: Hash): (r: Result<seq<PersistedRecord>, Error>)
    ensures r.Ok? ==> |r.value| == |lines|
  {
    if lines == [] then Ok([])
    else if !lines[0].Stored? then Err(MalformedRecord)
    else
      var entry := lines[0].entry;
      if entry.previousHash != expected then Err(BrokenChain)
      else if entry.hash != RecordMac(key, entry.record, entry.timestamp, entry.previousHash) then Err(RecordMacMismatch)
      else
        var rest := VerifyLines(key, lines[1..], entry.hash);
        if rest.Ok? then Ok([entry] + rest.value) else rest
  }

  function VerifySegment(key: nat, file: File): (r: Result<seq<PersistedRecord>, Error>)
    ensures r.Ok? ==> r.value != []
  {
    if file.lines == [] || file.torn > 0 then Err(EmptyOrTruncated)
    else if Blank in file.lines then Err(BlankRecord)
    else VerifyLines(key, file.lines, Initial)
  }

  // --------------------------------------------------------------- manifest

  /** A digest of a whole file. */
  datatype Digest = Sha256(contents: File)

  /** A segment as the manifest names it; `file` is the number in its file name, 0 for the active one. */
  datatype Segment = Segment(
    index: nat, file: nat, createdAt: int, bytes: nat, recordCount: nat, firstHash: Hash, lastHash: Hash, sha256: Digest)

  datatype ManifestMac = ManifestMac(key: nat, generation: nat, segments: seq<Segment>)

  datatype Manifest = Manifest(generation: nat, segments: seq<Segment>, hmac: ManifestMac)

  datatype ManifestFile = Missing | Corrupt | Written(manifest: Manifest)

  /** The audit directory: the segment files by index, and the manifest file. */
  datatype Disk = Disk(files: map<nat, File>, manifest: ManifestFile)

  const EmptyDisk := Disk(map[], Missing)

  function Signed(key: nat, generation: nat, segments: seq<Segment>): Manifest {
    Manifest(generation, segments, ManifestMac(key, generation, segments))
  }

  /** `manifestSegment`: how a verified file is described. */
  function Summary(index: nat, file: File, records: seq<PersistedRecord>): Segment
    requires records != []
  {
    Segment(index, index, records[0].timestamp, FileBytes(file), |records|, records[0].hash, records[|records| - 1].hash, Sha256(file))
  }

  /** The indices in a set below a bound, in ascending order. */
  function IndexList(keys: set<nat>, below: nat): (list: seq<nat>)
    ensures forall k | 0 <= k < |list| :: list[k] in keys
  {
    if below == 0 then [] else IndexList(keys, below - 1) + if below - 1 in keys then [below - 1] else []
  }

  /** The segments in the order of their indices. */
  function SegmentList(segments: map<nat, Segment>): seq<Segment> {
    var list := IndexList(segments.Keys, AUDIT_MAX_SEGMENTS);
    seq(|list|, k requires 0 <= k < |list| => segments[list[k]])
  }

  // ------------------------------------------------------------------ logger

  /** The fields of the logger. */
  datatype Logger = Logger(
    previousHash: Hash, createdAt: Option<int>, bytes: nat, generation: nat, segments: map<nat, Segment>,
    initialized: bool, poisoned: bool)

  function NewLogger(): Logger {
    Logger(Initial, None, 0, 0, map[], false, false)
  }

  function ResetActive(s: Logger): Logger {
    s.(previousHash := Initial, createdAt := None, bytes := 0)
  }

  datatype Op =
    | Unlink(index: nat)
    | Rename(source: nat, destination: nat)
    | Create(index: nat)
    | Append(index: nat, line: Line)
    | PutManifest(manifest: Manifest)

  /** One disk operation. Renaming or removing a file that is not there does nothing. */
  function Apply(d: Disk, op: Op): Disk {
    match op
    case Unlink(i) => d.(files := d.files - {i})
    case Rename(i, j) => if i in d.files then d.(files := (d.files - {i})[j := d.files[i]]) else d
    case Create(i) => if i in d.files then d else d.(files := d.files[i := File([], 0)])
    case Append(i, line) => if i in d.files then d.(files := d.files[i := d.files[i].(lines := d.files[i].lines + [line])]) else d
    case PutManifest(m) => d.(manifest := Written(m))
  }

  function Replay(d: Disk, ops: seq<Op>): Disk
    decreases |ops|
  {
    if ops == [] then d else Replay(Apply(d, ops[0]), ops[1..])
  }

  /** `persistManifest`: counts one generation up and writes the manifest, unless the count is exhausted. */
  function Persist(o: Options, s: Logger): (Logger, seq<Op>, bool) {
    if s.generation >= MAX_SAFE_INTEGER then (s, [], false)
    else
      var next := s.(generation := s.generation + 1);
      (next, [PutManifest(Signed(o.key, next.generation, SegmentList(next.segments)))], true)
  }

  /** Persists after a change of the segment files; a failure poisons the logger. */
  function PersistAfter(o: Options, s: Logger, ops: seq<Op>): (Logger, seq<Op>, bool) {
    var (next, written, ok) := Persist(o, s);
    if ok then (next, ops + written, true) else (s.(poisoned := true), ops, false)
  }

  predicate Expired(createdAt: int, now: int) {
    now - createdAt >= RETENTION_MS
  }

  /** The removals of `removeExpiredSegments` down to an index, the highest index first. */
  function UnlinkOps(segments: map<nat, Segment>, now: int, from: nat): seq<Op>
    decreases AUDIT_MAX_SEGMENTS - from
  {
    if from >= AUDIT_MAX_SEGMENTS then []
    else UnlinkOps(segments, now, from + 1) + if from in segments && Expired(segments[from].createdAt, now) then [Unlink(from)] else []
  }

  function Unexpired(segments: map<nat, Segment>, now: int): map<nat, Segment> {
    map i | i in segments && !Expired(segments[i].createdAt, now) :: segments[i]
  }

  /** The fields without the expired segments. */
  function Kept(s: Logger, now: int): Logger {
    var left := s.(segments := Unexpired(s.segments, now));
    if 0 in s.segments && 0 !in left.segments then ResetActive(left) else left
  }

  /** `removeExpiredSegments`. */
  function Expire(o: Options, s: Logger, now: int): (Logger, seq<Op>, bool) {
    var ops := UnlinkOps(s.segments, now, 0);
    if ops == [] then (s, [], true) else PersistAfter(o, Kept(s, now), ops)
  }

  /** The removal and the renames of `rotateCurrentSegment` until an index is free, the highest index first. */
  function RotateOps(max: nat, free: nat): seq<Op>
    requires free < max
    decreases max - free
  {
    if free == max - 1 then [Unlink(max - 1)] else RotateOps(max, free + 1) + [Rename(free, free + 1)]
  }

  predicate HasBelow(keys: set<nat>, j: nat) {
    j > 0 && j - 1 in keys
  }

  /** The indices one up, without the last one dropped. */
  function Raised(keys: set<nat>, max: nat): (raised: set<nat>)
    ensures forall j: nat :: j in raised <==> j < max && HasBelow(keys, j)
  {
    set i | i in keys && i + 1 < max :: i + 1
  }

  /** Every retained segment one index up, the last one dropped. */
  function Shifted(segments: map<nat, Segment>, max: nat): map<nat, Segment> {
    map j | j in Raised(segments.Keys, max) :: segments[j - 1].(index := j, file := j)
  }

  /** `rotateCurrentSegment`. */
  function Rotate(o: Options, s: Logger): (Logger, seq<Op>, bool)
    requires OptionsValid(o)
  {
    if s.bytes == 0 then (ResetActive(s), [], true)
    else PersistAfter(o, ResetActive(s.(segments := Shifted(s.segments, MaxSegments(o)))), RotateOps(MaxSegments(o), 0))
  }

  /** The fields after a line was appended to the active segment, whose file now reads `written`. */
  function Grown(s: Logger, entry: PersistedRecord, now: int, written: File): Logger {
    var createdAt := if s.createdAt.Some? then s.createdAt.value else now;
    var bytes := s.bytes + LineBytes(Stored(entry, 0));
    var count := if 0 in s.segments then s.segments[0].recordCount else 0;
    var first := if 0 in s.segments then s.segments[0].firstHash else entry.hash;
    var segment := Segment(0, 0, createdAt, bytes, count + 1, first, entry.hash, Sha256(written));
    s.(previousHash := entry.hash, createdAt := Some(createdAt), bytes := bytes, segments := s.segments[0 := segment])
  }

  /** The active file with one more line. */
  function Appended(d: Disk, entry: PersistedRecord): File {
    if 0 in d.files then d.files[0].(lines := d.files[0].lines + [Stored(entry, 0)]) else File([Stored(entry, 0)], 0)
  }

  /** The append of `record`, with the digest read back from the file. */
  function AppendRecord(o: Options, s: Logger, d: Disk, record: AuditRecord, now: int): (Logger, seq<Op>, bool) {
    var entry := Serialize(o.key, record, now, s.previousHash);
    PersistAfter(o, Grown(s, entry, now, Appended(d, entry)), [Create(0), Append(0, Stored(entry, 0))])
  }

  datatype Outcome = Recorded | Failed(error: Error)

  /** The part of `record` after expiry: rotate if the line does not fit, then append. */
  function Enter(o: Options, s: Logger, d: Disk, record: AuditRecord, now: int): (Logger, seq<Op>, Outcome)
    requires OptionsValid(o)
  {
    var line := LineBytes(Stored(Serialize(o.key, record, now, s.previousHash), 0));
    if line > o.segmentMax then (s, [], Failed(RecordTooLarge))
    else if s.bytes > 0 && s.bytes + line > o.segmentMax then
      var (rotated, ops, ok) := Rotate(o, s);
      if !ok then (rotated, ops, Failed(GenerationExhausted))
      else
        var (after, more, written) := AppendRecord(o, rotated, Replay(d, ops), record, now);
        (after, ops + more, if written then Recorded else Failed(GenerationExhausted))
    else
      var (after, ops, written) := AppendRecord(o, s, d, record, now);
      (after, ops, if written then Recorded else Failed(GenerationExhausted))
  }

  /** `record`: the logger afterwards, its disk operations in order, and the outcome. */
  function Record(o: Options, s: Logger, d: Disk, raw: RawRecord, now: int): (Logger, seq<Op>, Outcome)
    requires OptionsValid(o)
  {
    if !s.initialized then (s, [], Failed(NotInitialized))
    else if s.poisoned then (s, [], Failed(Unavailable))
    else if raw.InvalidRecord? then (s, [], Failed(RecordInvalid))
    else
      var (kept, ops, ok) := Expire(o, s, now);
      if !ok then (kept, ops, Failed(GenerationExhausted))
      else
        var (after, more, outcome) := Enter(o, kept, Replay(d, ops), raw.record, now);
        (after, ops + more, outcome)
  }

  // -------------------------------------------------------------- initialize

  /** `AuditManifestSchema`, apart from the text of the names. */
  predicate ManifestWellFormed(m: Manifest) {
    && m.generation <= MAX_SAFE_INTEGER && |m.segments| <= AUDIT_MAX_SEGMENTS
    && forall k | 0 <= k < |m.segments| ::
         m.segments[k].index < AUDIT_MAX_SEGMENTS && 0 < m.segments[k].bytes <= AUDIT_SEGMENT_MAX_BYTES && 0 < m.segments[k].recordCount
  }

  function Indices(segments: seq<Segment>): seq<nat> {
    seq(|segments|, k requires 0 <= k < |segments| => segments[k].index)
  }

  /** `validateManifestLayout`. */
  function LayoutError(o: Options, m: Manifest, discovered: seq<nat>): Option<Error>
    requires OptionsValid(o)
  {
    if exists k | 0 < k < |m.segments| :: m.segments[k - 1].index >= m.segments[k].index then Some(ManifestOrder)
    else if discovered != Indices(m.segments) then Some(SegmentSetMismatch)
    else if exists k | 0 <= k < |m.segments| ::
              m.segments[k].index >= MaxSegments(o) || m.segments[k].file != m.segments[k].index || m.segments[k].bytes > o.segmentMax
      then Some(InvalidSegmentFile)
    else None
  }

  /** `loadAndVerifySegment`. */
  function LoadSegment(o: Options, file: File): (r: Result<seq<PersistedRecord>, Error>)
    ensures r.Ok? ==> r.value != []
  {
    if FileBytes(file) > o.segmentMax then Err(SegmentSizeExceeded) else VerifySegment(o.key, file)
  }

  function Adopt(s: Logger, segment: Segment): Logger {
    var more := s.(segments := s.segments[segment.index := segment]);
    if segment.index == 0
    then more.(createdAt := Some(segment.createdAt), previousHash := segment.lastHash, bytes := segment.bytes)
    else more
  }

  /** What is wrong with one segment the manifest names, if anything, after `total` bytes of others. */
  function SegmentError(o: Options, files: map<nat, File>, e: Segment, total: nat): Option<Error> {
    if e.index !in files then Some(MissingSegment)
    else
      match LoadSegment(o, files[e.index])
      case Err(error) => Some(error)
      case Ok(records) =>
        if Summary(e.index, files[e.index], records) != e then Some(SegmentMismatch)
        else if total + e.bytes > o.totalMax then Some(TotalSizeExceeded)
        else None
  }

  /** The loop of `initialize` over the segments its manifest names. */
  function LoadSegments(o: Options, files: map<nat, File>, expected: seq<Segment>, s: Logger, total: nat): Result<Logger, Error> {
    if expected == [] then Ok(s)
    else
      match SegmentError(o, files, expected[0], total)
      case Some(error) => Err(error)
      case None => LoadSegments(o, files, expected[1..], Adopt(s, expected[0]), total + expected[0].bytes)
  }

  /** The fields when that loop ends; a segment that only exceeds the total has already been entered. */
  function LoadedFields(o: Options, files: map<nat, File>, expected: seq<Segment>, s: Logger, total: nat): Logger {
    if expected == [] then s
    else
      var e := expected[0];
      if SegmentError(o, files, e, total) == None then LoadedFields(o, files, expected[1..], Adopt(s, e), total + e.bytes)
      else if e.index in files && LoadSegment(o, files[e.index]).Ok? && Summary(e.index, files[e.index], LoadSegment(o, files[e.index]).value) == e
      then s.(segments := s.segments[e.index := e])
      else s
  }

  /** The manifest that `initialize` goes by, once its file and the names in the directory are in order. */
  function NamingManifest(o: Options, d: Disk): Result<Manifest, Error>
    requires OptionsValid(o)
  {
    if exists i | i in d.files :: i >= MaxSegments(o) then Err(SegmentUnexpected)
    else
      match d.manifest
      case Missing => Err(ManifestMissing)
      case Corrupt => Err(ManifestInvalid)
      case Written(m) =>
        if !ManifestWellFormed(m) then Err(ManifestInvalid)
        else if m.hmac != ManifestMac(o.key, m.generation, m.segments) then Err(ManifestMacMismatch)
        else
          var layout := LayoutError(o, m, IndexList(d.files.Keys, AUDIT_MAX_SEGMENTS));
          if layout.Some? then Err(layout.value) else Ok(m)
  }

  /** What `initialize` reads from a directory with a manifest, before anything expires. */
  function Load(o: Options, d: Disk): Result<Logger, Error>
    requires OptionsValid(o)
  {
    match NamingManifest(o, d)
    case Err(error) => Err(error)
    case Ok(m) => LoadSegments(o, d.files, m.segments, NewLogger().(generation := m.generation), 0)
  }

  /** The fields that loading leaves, whether it succeeds or not. */
  function Loaded(o: Options, d: Disk): Logger
    requires OptionsValid(o)
  {
    match NamingManifest(o, d)
    case Err(_) => NewLogger()
    case Ok(m) => LoadedFields(o, d.files, m.segments, NewLogger().(generation := m.generation), 0)
  }

  /** `initialize` of a new logger: the logger it leaves, its disk operations, and why it failed, if it did. */
  function Initialize(o: Options, d: Disk, now: int): (Logger, seq<Op>, Option<Error>)
    requires OptionsValid(o)
  {
    if d == EmptyDisk then
      var (s, ops, _) := Persist(o, NewLogger());
      (s.(initialized := true), ops, None)
    else
      match Load(o, d)
      case Err(error) => (Loaded(o, d), [], Some(error))
      case Ok(loaded) =>
        var (s, ops, ok) := Expire(o, loaded, now);
        if ok then (s.(initialized := true), ops, None) else (s, ops, Some(GenerationExhausted))
  }
}
