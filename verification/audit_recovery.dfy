/** When `initialize` accepts a directory, and which logger it then rebuilds. */
module AuditRecovery {
  import opened Wrappers
  import opened Audit

  // ------------------------------------------------------------ definitions

  /** The file verifies and the segment describes it. */
  ghost predicate Sound(o: Options, i: nat, segment: Segment, file: File) {
    LoadSegment(o, file).Ok? && segment == Summary(i, file, LoadSegment(o, file).value)
  }

  /** The fields about the active segment follow from segment 0. */
  ghost predicate ActiveOk(s: Logger) {
    if 0 in s.segments
    then s.createdAt == Some(s.segments[0].createdAt) && s.previousHash == s.segments[0].lastHash && s.bytes == s.segments[0].bytes
    else s.createdAt == None && s.previousHash == Initial && s.bytes == 0
  }

  /** The segment map describes exactly these files. */
  ghost predicate SegmentsSound(o: Options, segments: map<nat, Segment>, files: map<nat, File>)
    requires OptionsValid(o)
  {
    && files.Keys == segments.Keys
    && forall i | i in segments :: i < MaxSegments(o) && Sound(o, i, segments[i], files[i])
  }

  /** The logger's fields describe exactly these files. */
  ghost predicate Consistent(o: Options, s: Logger, files: map<nat, File>) {
    && OptionsValid(o)
    && s.generation <= MAX_SAFE_INTEGER
    && SegmentsSound(o, s.segments, files)
    && ActiveOk(s)
  }

  /** The logger, the segment files and the manifest agree. */
  ghost predicate InSync(o: Options, s: Logger, d: Disk) {
    && Consistent(o, s, d.files)
    && d.manifest == Written(Signed(o.key, s.generation, SegmentList(s.segments)))
  }

  /** The part of the logger that outlives the process. */
  function Durable(s: Logger): Logger {
    s.(initialized := false, poisoned := false)
  }

  ghost predicate Ordered(list: seq<Segment>) {
    forall a, b | 0 <= a < b < |list| :: list[a].index < list[b].index
  }

  // ------------------------------------------------------- the loading loop

  ghost predicate AllSound(o: Options, files: map<nat, File>, list: seq<Segment>) {
    forall k | 0 <= k < |list| :: list[k].index in files && Sound(o, list[k].index, list[k], files[list[k].index])
  }

  function AdoptAll(s: Logger, list: seq<Segment>): Logger
    decreases |list|
  {
    if list == [] then s else AdoptAll(Adopt(s, list[0]), list[1..])
  }

  function TotalBytes(list: seq<Segment>): nat {
    if list == [] then 0 else list[0].bytes + TotalBytes(list[1..])
  }

  /** The loading loop accepts exactly the files that every expected segment describes, within the total. */
  lemma {:induction false} LoadSegmentsExactly(o: Options, files: map<nat, File>, list: seq<Segment>, s: Logger, total: nat)
    ensures var r := LoadSegments(o, files, list, s, total);
            && (r.Ok? ==> r.value == AdoptAll(s, list))
            && (r.Ok? ==> AllSound(o, files, list))
    ensures AllSound(o, files, list) && total + TotalBytes(list) <= o.totalMax ==> LoadSegments(o, files, list, s, total).Ok?
    decreases |list|
  {
    if list != [] {
      LoadSegmentsExactly(o, files, list[1..], Adopt(s, list[0]), total + list[0].bytes);
      assert AllSound(o, files, list) <==>
        list[0].index in files && Sound(o, list[0].index, list[0], files[list[0].index]) && AllSound(o, files, list[1..]) by {
        assert forall k | 1 <= k < |list| :: list[k] == list[1..][k - 1];
      }
    }
  }

  /** What adopting segments with ascending indices leaves. */
  lemma {:induction false} AdoptAllIs(s: Logger, list: seq<Segment>)
    requires Ordered(list)
    ensures var t := AdoptAll(s, list);
            && (forall i: nat :: i in t.segments <==> i in s.segments || exists k :: 0 <= k < |list| && list[k].index == i)
            && (forall k | 0 <= k < |list| :: list[k].index in t.segments && t.segments[list[k].index] == list[k])
            && t == s.(segments := t.segments, createdAt := t.createdAt, previousHash := t.previousHash, bytes := t.bytes)
            && (if list != [] && list[0].index == 0
                then t.createdAt == Some(list[0].createdAt) && t.previousHash == list[0].lastHash && t.bytes == list[0].bytes
                else t.createdAt == s.createdAt && t.previousHash == s.previousHash && t.bytes == s.bytes)
    decreases |list|
  {
    if list != [] {
      var next := Adopt(s, list[0]);
      AdoptAllIs(next, list[1..]);
      AdoptAllKeeps(next, list[1..], list[0].index);
      var t := AdoptAll(s, list);
      forall i: nat ensures i in t.segments <==> i in s.segments || exists k :: 0 <= k < |list| && list[k].index == i {
        if k :| 0 <= k < |list| && list[k].index == i {
          assert k > 0 ==> list[1..][k - 1].index == i;
        }
      }
      forall k | 0 <= k < |list| ensures list[k].index in t.segments && t.segments[list[k].index] == list[k] {
        assert k > 0 ==> list[1..][k - 1] == list[k];
      }
    }
  }

  lemma {:induction false} AdoptAllKeeps(s: Logger, list: seq<Segment>, i: nat)
    requires i in s.segments && forall k | 0 <= k < |list| :: list[k].index != i
    ensures i in AdoptAll(s, list).segments && AdoptAll(s, list).segments[i] == s.segments[i]
    decreases |list|
  {
    if list != [] {
      AdoptAllKeeps(Adopt(s, list[0]), list[1..], i);
    }
  }

  /** Segments with ascending indices below a bound cannot exceed that many times the segment limit. */
  lemma {:induction false} TotalWithin(list: seq<Segment>, from: nat, max: nat, limit: nat)
    requires Ordered(list) && from <= max
    requires forall k | 0 <= k < |list| :: from <= list[k].index < max && list[k].bytes <= limit
    ensures TotalBytes(list) <= (max - from) * limit
    decreases |list|
  {
    if list == [] {
      Times(from, max, max, limit);
    } else {
      var first := list[0].index;
      assert forall k | 1 <= k < |list| :: first < list[k].index;
      TotalWithin(list[1..], first + 1, max, limit);
      Times(from, first, max, limit);
    }
  }

  lemma Times(from: nat, i: nat, max: nat, limit: nat)
    requires from <= i <= max
    ensures 0 <= (max - from) * limit
    ensures i < max ==> limit + (max - (i + 1)) * limit <= (max - from) * limit
  {
    if i < max {
      assert (max - from) * limit == limit + (max - (i + 1)) * limit + (i - from) * limit;
    }
  }

  // ------------------------------------------------------------ segment lists

  ghost predicate Ascending(list: seq<nat>, below: nat) {
    && (forall k | 0 <= k < |list| :: list[k] < below)
    && (forall a, b | 0 <= a < b < |list| :: list[a] < list[b])
  }

  lemma {:induction false} IndexListAscends(keys: set<nat>, below: nat)
    ensures Ascending(IndexList(keys, below), below) && |IndexList(keys, below)| <= below
  {
    if below > 0 {
      IndexListAscends(keys, below - 1);
    }
  }

  lemma {:induction false} IndexListHolds(keys: set<nat>, below: nat, key: nat)
    requires key < below
    ensures key in IndexList(keys, below) <==> key in keys
  {
    if below - 1 == key {
      IndexListAscends(keys, below - 1);
    } else {
      IndexListHolds(keys, below - 1, key);
    }
  }

  /** One entry of the list the manifest holds for consistent fields. */
  lemma ListedSegment(o: Options, s: Logger, files: map<nat, File>, k: nat)
    requires Consistent(o, s, files) && k < |IndexList(s.segments.Keys, AUDIT_MAX_SEGMENTS)|
    ensures |SegmentList(s.segments)| == |IndexList(s.segments.Keys, AUDIT_MAX_SEGMENTS)|
    ensures var list, i := SegmentList(s.segments), IndexList(s.segments.Keys, AUDIT_MAX_SEGMENTS)[k];
            && i in s.segments && list[k] == s.segments[i] && list[k].index == i
            && ListedOne(o, s, list[k])
  {
    hide IndexList, MaxSegments, LoadSegment, ActiveOk;
    var i := IndexList(s.segments.Keys, AUDIT_MAX_SEGMENTS)[k];
    assert i in IndexList(s.segments.Keys, AUDIT_MAX_SEGMENTS);
    assert Sound(o, i, s.segments[i], files[i]);
    LineBytesPositive(o, files[i]);
  }

  ghost predicate Listed(o: Options, s: Logger, list: seq<Segment>)
    requires OptionsValid(o)
  {
    |list| <= AUDIT_MAX_SEGMENTS && forall k | 0 <= k < |list| :: ListedOne(o, s, list[k])
  }

  ghost predicate ListedOne(o: Options, s: Logger, segment: Segment)
    requires OptionsValid(o)
  {
    && segment.index in s.segments && s.segments[segment.index] == segment
    && segment.index < MaxSegments(o) && segment.file == segment.index
    && 0 < segment.recordCount && 0 < segment.bytes <= o.segmentMax
  }

  /** The list the manifest holds for consistent fields. */
  lemma SegmentListIs(o: Options, s: Logger, files: map<nat, File>)
    requires Consistent(o, s, files)
    ensures var list := SegmentList(s.segments);
            Listed(o, s, list) && Ordered(list) && Indices(list) == IndexList(files.Keys, AUDIT_MAX_SEGMENTS)
  {
    var list := SegmentList(s.segments);
    var indices: seq<nat> := IndexList(s.segments.Keys, AUDIT_MAX_SEGMENTS);
    assert |list| == |indices|;
    IndexListAscends(s.segments.Keys, AUDIT_MAX_SEGMENTS);
    hide IndexList, MaxSegments, ActiveOk, Sound, ListedOne, SegmentList;
    forall k | 0 <= k < |list| ensures list[k].index == indices[k] && ListedOne(o, s, list[k]) {
      ListedSegment(o, s, files, k);
    }
  }

  /** Where a segment is in the list. */
  lemma PositionOf(o: Options, s: Logger, files: map<nat, File>, i: nat) returns (k: nat)
    requires Consistent(o, s, files) && i in s.segments
    ensures k < |SegmentList(s.segments)| && SegmentList(s.segments)[k] == s.segments[i] && s.segments[i].index == i
  {
    var indices: seq<nat> := IndexList(s.segments.Keys, AUDIT_MAX_SEGMENTS);
    assert i < MaxSegments(o) <= AUDIT_MAX_SEGMENTS;
    IndexListHolds(s.segments.Keys, AUDIT_MAX_SEGMENTS, i);
    k :| 0 <= k < |indices| && indices[k] == i;
    ListedSegment(o, s, files, k);
  }

  /** The segments of a consistent logger never hold more bytes than the configured total. */
  lemma TotalStaysWithin(o: Options, s: Logger, files: map<nat, File>)
    requires Consistent(o, s, files)
    ensures TotalBytes(SegmentList(s.segments)) <= o.totalMax
  {
    hide MaxSegments, SegmentList, Sound, ActiveOk, Indices;
    SegmentListIs(o, s, files);
    TotalWithin(SegmentList(s.segments), 0, MaxSegments(o), o.segmentMax);
  }

  /** The size of the active file, once it exists, is the byte count. */
  lemma ActiveSize(o: Options, s: Logger, d: Disk)
    requires InSync(o, s, d)
    ensures FileBytes(Apply(d, Create(0)).files[0]) == s.bytes
  {
    if 0 in s.segments {
      assert Sound(o, 0, s.segments[0], d.files[0]);
    }
  }

  lemma LineBytesPositive(o: Options, file: File)
    requires LoadSegment(o, file).Ok?
    ensures 0 < FileBytes(file) <= o.segmentMax
  {
  }

  /** Two sets of small indices with the same list are the same set. */
  lemma SameIndices(a: set<nat>, b: set<nat>)
    requires forall i | i in a :: i < AUDIT_MAX_SEGMENTS
    requires forall i | i in b :: i < AUDIT_MAX_SEGMENTS
    requires IndexList(a, AUDIT_MAX_SEGMENTS) == IndexList(b, AUDIT_MAX_SEGMENTS)
    ensures a == b
  {
    hide IndexList;
    forall i: nat | i < AUDIT_MAX_SEGMENTS ensures i in a <==> i in b {
      IndexListHolds(a, AUDIT_MAX_SEGMENTS, i);
      IndexListHolds(b, AUDIT_MAX_SEGMENTS, i);
    }
  }

  // ---------------------------------------------------------- load, exactly

  /**
   * A directory whose manifest was written for consistent fields loads exactly when its segment files
   * are, byte for byte, the ones the manifest was written for; then it rebuilds those fields.
   */
  lemma LoadExactly(o: Options, s: Logger, d: Disk, files: map<nat, File>)
    requires InSync(o, s, d)
    ensures var r := Load(o, Disk(files, d.manifest));
            if files == d.files then r == Ok(Durable(s)) else r.Err?
  {
    if files == d.files {
      assert Disk(files, d.manifest) == d;
      LoadsBack(o, s, d);
    } else if Load(o, Disk(files, d.manifest)).Ok? {
      LoadsOnlySame(o, s, d, files);
      assert false;
    }
  }

  lemma LoadsOnlySame(o: Options, s: Logger, d: Disk, files: map<nat, File>)
    requires InSync(o, s, d) && Load(o, Disk(files, d.manifest)).Ok?
    ensures files == d.files
  {
    hide IndexList, MaxSegments, SegmentList, LoadSegments, AdoptAll, LoadSegment, TotalBytes, ManifestWellFormed, ActiveOk, LayoutError;
    SegmentListIs(o, s, d.files);
    var list := SegmentList(s.segments);
    LoadSegmentsExactly(o, files, list, NewLogger().(generation := s.generation), 0);
    LoadsOnlySameIndices(o, s, d, files);
    forall i | i in files ensures files[i] == d.files[i] {
      var k := PositionOf(o, s, d.files, i);
      assert Sound(o, i, s.segments[i], d.files[i]);
      assert Sound(o, list[k].index, list[k], files[list[k].index]);
    }
  }

  lemma LoadsOnlySameIndices(o: Options, s: Logger, d: Disk, files: map<nat, File>)
    requires InSync(o, s, d) && Load(o, Disk(files, d.manifest)).Ok?
    ensures files.Keys == d.files.Keys
  {
    hide IndexList, MaxSegments, SegmentList, LoadSegments, ManifestWellFormed, ActiveOk, Sound;
    SegmentListIs(o, s, d.files);
    MaxSegmentsAtMost(o);
    assert IndexList(files.Keys, AUDIT_MAX_SEGMENTS) == Indices(SegmentList(s.segments));
    SameIndices(files.Keys, d.files.Keys);
  }

  lemma MaxSegmentsAtMost(o: Options)
    requires OptionsValid(o)
    ensures MaxSegments(o) <= AUDIT_MAX_SEGMENTS
  {
  }

  lemma LoadsBack(o: Options, s: Logger, d: Disk)
    requires InSync(o, s, d)
    ensures Load(o, d) == Ok(Durable(s))
  {
    hide IndexList, MaxSegments, SegmentList, LoadSegments, AdoptAll, LoadSegment, TotalBytes, ManifestWellFormed, LayoutError, ActiveOk, Sound;
    NoLayoutError(o, s, d);
    AdoptsBack(o, s, d);
    var list := SegmentList(s.segments);
    SegmentListIs(o, s, d.files);
    TotalStaysWithin(o, s, d.files);
    assert AllSound(o, d.files, list);
    LoadSegmentsExactly(o, d.files, list, NewLogger().(generation := s.generation), 0);
  }

  /** Adopting the listed segments one by one rebuilds the fields. */
  lemma AdoptsBack(o: Options, s: Logger, d: Disk)
    requires InSync(o, s, d)
    ensures AdoptAll(NewLogger().(generation := s.generation), SegmentList(s.segments)) == Durable(s)
  {
    hide IndexList, MaxSegments, SegmentList, AdoptAll, Sound, Indices;
    var list := SegmentList(s.segments);
    var start := NewLogger().(generation := s.generation);
    SegmentListIs(o, s, d.files);
    AdoptAllIs(start, list);
    var t := AdoptAll(start, list);
    forall i: nat ensures i in t.segments <==> i in s.segments {
      if i in s.segments {
        var k := PositionOf(o, s, d.files, i);
      }
    }
    forall i | i in t.segments ensures t.segments[i] == s.segments[i] {
      var k := PositionOf(o, s, d.files, i);
    }
    assert t.segments == s.segments;
    if 0 in s.segments {
      var k := PositionOf(o, s, d.files, 0);
      assert k == 0;
    }
  }

  lemma NoLayoutError(o: Options, s: Logger, d: Disk)
    requires InSync(o, s, d)
    ensures var m := d.manifest.manifest;
            ManifestWellFormed(m) && LayoutError(o, m, IndexList(d.files.Keys, AUDIT_MAX_SEGMENTS)) == None
  {
    hide IndexList, MaxSegments, SegmentList, Sound, ActiveOk, TotalBytes;
    SegmentListIs(o, s, d.files);
  }

  // -------------------------------------------------- what load establishes

  lemma {:induction false} AdjacentOrdered(list: seq<Segment>)
    requires forall k | 0 < k < |list| :: list[k - 1].index < list[k].index
    ensures Ordered(list)
  {
    if list != [] {
      var last := |list| - 1;
      AdjacentOrdered(list[..last]);
      forall a, b | 0 <= a < b < |list| ensures list[a].index < list[b].index {
        if b == last && a < last - 1 {
          assert list[..last][a].index < list[..last][last - 1].index;
        } else if b < last {
          assert list[..last][a].index < list[..last][b].index;
        }
      }
    }
  }

  /** What an accepted directory looks like. */
  lemma LoadedParts(o: Options, d: Disk)
    requires OptionsValid(o) && Load(o, d).Ok?
    ensures d.manifest.Written?
    ensures var m := d.manifest.manifest;
            && m == Signed(o.key, m.generation, m.segments) && m.generation <= MAX_SAFE_INTEGER
            && Ordered(m.segments) && Indices(m.segments) == IndexList(d.files.Keys, AUDIT_MAX_SEGMENTS)
            && (forall i | i in d.files :: i < MaxSegments(o))
            && AllSound(o, d.files, m.segments)
            && Load(o, d).value == AdoptAll(NewLogger().(generation := m.generation), m.segments)
  {
    hide IndexList, MaxSegments, LoadSegment, LoadSegments, AdoptAll;
    var m := d.manifest.manifest;
    AdjacentOrdered(m.segments);
    LoadSegmentsExactly(o, d.files, m.segments, NewLogger().(generation := m.generation), 0);
  }

  /** Which segments adopting a manifest's list gives. */
  lemma AdoptedSegments(o: Options, files: map<nat, File>, list: seq<Segment>, s: Logger)
    requires OptionsValid(o) && s.segments == map[]
    requires Ordered(list) && Indices(list) == IndexList(files.Keys, AUDIT_MAX_SEGMENTS) && (forall i | i in files :: i < MaxSegments(o))
    ensures var t := AdoptAll(s, list);
            t.segments.Keys == files.Keys && SegmentList(t.segments) == list
    ensures forall i | i in files :: exists k :: 0 <= k < |list| && list[k].index == i
  {
    var t := AdoptAll(s, list);
    AdoptAllIs(s, list);
    MaxSegmentsAtMost(o);
    hide IndexList, MaxSegments, AdoptAll, Ordered;
    var indices: seq<nat> := IndexList(files.Keys, AUDIT_MAX_SEGMENTS);
    forall k | 0 <= k < |list| ensures list[k].index in files {
      assert indices[k] == list[k].index;
    }
    forall i: nat ensures i in t.segments <==> i in files {
      if i in files {
        IndexListHolds(files.Keys, AUDIT_MAX_SEGMENTS, i);
        var k :| 0 <= k < |indices| && indices[k] == i;
        assert list[k].index == i;
      }
    }
    assert t.segments.Keys == files.Keys;
    forall k | 0 <= k < |list| ensures t.segments[indices[k]] == list[k] {
      assert indices[k] == list[k].index;
    }
    assert SegmentList(t.segments) == list;
  }

  lemma AdoptedSound(o: Options, files: map<nat, File>, list: seq<Segment>, segments: map<nat, Segment>)
    requires OptionsValid(o) && segments.Keys == files.Keys && AllSound(o, files, list)
    requires forall i | i in files :: i < MaxSegments(o) && exists k :: 0 <= k < |list| && list[k].index == i
    requires forall k | 0 <= k < |list| :: list[k].index in segments && segments[list[k].index] == list[k]
    ensures SegmentsSound(o, segments, files)
  {
    hide MaxSegments;
    forall i | i in segments ensures i < MaxSegments(o) && Sound(o, i, segments[i], files[i]) {
      var k :| 0 <= k < |list| && list[k].index == i;
      assert Sound(o, list[k].index, list[k], files[list[k].index]);
    }
  }

  /** A directory that loads is one that some logger is in sync with: the one that was loaded. */
  lemma LoadGivesInSync(o: Options, d: Disk)
    requires OptionsValid(o) && Load(o, d).Ok?
    ensures InSync(o, Load(o, d).value, d)
  {
    hide IndexList, MaxSegments, AdoptAll, SegmentList, Load, Sound, SegmentsSound, AllSound;
    LoadedParts(o, d);
    var list := d.manifest.manifest.segments;
    var start := NewLogger().(generation := d.manifest.manifest.generation);
    var t := AdoptAll(start, list);
    AdoptedSegments(o, d.files, list, start);
    AdoptAllIs(start, list);
    AdoptedSound(o, d.files, list, t.segments);
    if 0 in t.segments {
      var k :| 0 <= k < |list| && list[k].index == 0;
      assert k == 0;
    }
  }

  // ---------------------------------------------------------- failed starts

  /**
   * What a start that fails in the loading loop leaves behind: the segments before the failing one are
   * adopted, and the failing one has only been entered if it was sound and broke the total.
   */
  lemma {:induction false} LoadedFieldsAre(o: Options, files: map<nat, File>, list: seq<Segment>, s: Logger, total: nat) returns (k: nat)
    ensures k <= |list| && AllSound(o, files, list[..k])
    ensures k == |list| <==> LoadSegments(o, files, list, s, total).Ok?
    ensures LoadedFields(o, files, list, s, total) ==
            var adopted := AdoptAll(s, list[..k]);
            if k < |list| && list[k].index in files && Sound(o, list[k].index, list[k], files[list[k].index])
            then adopted.(segments := adopted.segments[list[k].index := list[k]]) else adopted
    ensures k < |list| && list[k].index in files && Sound(o, list[k].index, list[k], files[list[k].index]) ==>
              total + TotalBytes(list[..k]) + list[k].bytes > o.totalMax
    decreases |list|
  {
    hide LoadSegment, Summary;
    if list == [] || SegmentError(o, files, list[0], total).Some? {
      k := 0;
      assert list[..0] == [];
    } else {
      var rest := LoadedFieldsAre(o, files, list[1..], Adopt(s, list[0]), total + list[0].bytes);
      k := rest + 1;
      assert list[..k][1..] == list[1..][..rest];
      assert forall a | 1 <= a < k :: list[..k][a] == list[1..][..rest][a - 1];
    }
  }

  /** A loading error about a segment is true of its file. */
  lemma SegmentErrors(o: Options, files: map<nat, File>, e: Segment, total: nat)
    ensures var error := SegmentError(o, files, e, total);
            && (error == Some(MissingSegment) <==> e.index !in files)
            && (e.index in files ==>
                  && (error == Some(SegmentSizeExceeded) <==> FileBytes(files[e.index]) > o.segmentMax)
                  && (error == Some(SegmentMismatch) ==> LoadSegment(o, files[e.index]).Ok? && !Sound(o, e.index, e, files[e.index]))
                  && (error == Some(TotalSizeExceeded) ==> Sound(o, e.index, e, files[e.index]) && total + e.bytes > o.totalMax)
                  && (error == Some(EmptyOrTruncated) ==> files[e.index].lines == [] || files[e.index].torn > 0)
                  && (error == Some(BlankRecord) ==> Blank in files[e.index].lines))
  {
    if e.index in files {
      LineErrors(o.key, files[e.index].lines, Initial);
    }
  }

  lemma {:induction false} LineErrors(key: nat, lines: seq<Line>, expected: Hash)
    ensures var r := VerifyLines(key, lines, expected);
            r.Err? ==> r.error in {MalformedRecord, BrokenChain, RecordMacMismatch}
  {
    if lines != [] && lines[0].Stored? {
      LineErrors(key, lines[1..], lines[0].entry.hash);
    }
  }

  /** An error about the manifest or the names is true of the directory. */
  lemma ManifestErrors(o: Options, d: Disk)
    requires OptionsValid(o)
    ensures match NamingManifest(o, d)
            case Ok(m) => d.manifest == Written(m) && m == Signed(o.key, m.generation, m.segments) && forall i | i in d.files :: i < MaxSegments(o)
            case Err(SegmentUnexpected) => exists i :: i in d.files && i >= MaxSegments(o)
            case Err(ManifestMissing) => d.manifest == Missing
            case Err(ManifestInvalid) => d.manifest == Corrupt || (d.manifest.Written? && !ManifestWellFormed(d.manifest.manifest))
            case Err(ManifestMacMismatch) => d.manifest.Written? && d.manifest.manifest.hmac != ManifestMac(o.key, d.manifest.manifest.generation, d.manifest.manifest.segments)
            case Err(ManifestOrder) => d.manifest.Written? && !Ordered(d.manifest.manifest.segments)
            case Err(SegmentSetMismatch) => d.manifest.Written? && IndexList(d.files.Keys, AUDIT_MAX_SEGMENTS) != Indices(d.manifest.manifest.segments)
            case Err(InvalidSegmentFile) =>
              && d.manifest.Written?
              && exists e :: e in d.manifest.manifest.segments && (e.index >= MaxSegments(o) || e.file != e.index || e.bytes > o.segmentMax)
            case Err(_) => false
  {
    hide MaxSegments, IndexList, ManifestWellFormed;
  }
}
