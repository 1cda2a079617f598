/** Thirty days of retention, spelled out. */
module AuditRetention {
  import opened Audit
  import opened AuditRecovery
  import opened AuditSteps
  import opened AuditRuns

  /**
   * After a successful start or call at `now`, every segment that the logger describes, and every segment the
   * manifest on disk names, began less than thirty days before.
   */
  lemma NothingOverdue(o: Options, d: Disk, x: Life, i: nat)
    requires OptionsValid(o) && Startable(o, d) && Lives(o, d, x)
    requires i <= |x.calls| && x.outcomes[i] == Recorded
    ensures var s, left, now := x.loggers[i], Replay(d, x.traces[i]), LastTime(x, i);
            && (forall j | j in s.segments :: now - s.segments[j].createdAt < 2_592_000_000)
            && left.manifest.Written?
            && (forall k | 0 <= k < |left.manifest.manifest.segments| :: now - left.manifest.manifest.segments[k].createdAt < 2_592_000_000)
  {
    LifeKeeps(o, d, x, i);
    hide Lives, CrashSafe, Replay, Startable;
    ListedYoung(o, x.loggers[i], Replay(d, x.traces[i]), LastTime(x, i));
  }

  lemma ListedYoung(o: Options, s: Logger, d: Disk, now: int)
    requires InSync(o, s, d) && NoneExpired(s, now)
    ensures forall j | j in s.segments :: now - s.segments[j].createdAt < 2_592_000_000
    ensures d.manifest == Written(Signed(o.key, s.generation, SegmentList(s.segments)))
    ensures forall k | 0 <= k < |SegmentList(s.segments)| :: now - SegmentList(s.segments)[k].createdAt < 2_592_000_000
  {
    var list := IndexList(s.segments.Keys, AUDIT_MAX_SEGMENTS);
    forall k | 0 <= k < |list| ensures now - SegmentList(s.segments)[k].createdAt < 2_592_000_000 {
      assert list[k] in s.segments;
    }
  }

  lemma {:induction false} UnlinksListed(segments: map<nat, Segment>, now: int, from: nat, i: nat)
    ensures Unlink(i) in UnlinkOps(segments, now, from) <==>
              from <= i < AUDIT_MAX_SEGMENTS && i in segments && Expired(segments[i].createdAt, now)
    decreases AUDIT_MAX_SEGMENTS - from
  {
    if from < AUDIT_MAX_SEGMENTS {
      UnlinksListed(segments, now, from + 1, i);
    }
  }

  /** What expiry does to the fields and to the files, whether or not its manifest could be written. */
  lemma ExpireActs(o: Options, s: Logger, d: Disk, now: int, i: nat)
    requires forall j | j in s.segments :: j < AUDIT_MAX_SEGMENTS
    ensures var (t, ops, ok) := Expire(o, s, now);
            && t.segments == Unexpired(s.segments, now)
            && Replay(d, ops).files == d.files - ExpiredFrom(s.segments, now, 0)
            && (Unlink(i) in ops <==> Unlink(i) in UnlinkOps(s.segments, now, 0))
  {
    var ops := UnlinkOps(s.segments, now, 0);
    UnlinksExpired(d, s.segments, now, 0);
    NothingGone(s.segments, now);
    hide UnlinkOps, Replay, ExpiredFrom, Unexpired, SegmentList;
    if ops != [] && s.generation < MAX_SAFE_INTEGER {
      ReplaySnoc(d, ops, PutManifest(Signed(o.key, s.generation + 1, SegmentList(Kept(s, now).segments))));
    } else if ops == [] {
      assert d.files - {} == d.files;
    }
  }

  lemma NothingGone(segments: map<nat, Segment>, now: int)
    ensures UnlinkOps(segments, now, 0) == [] && (forall i | i in segments :: i < AUDIT_MAX_SEGMENTS) ==> Unexpired(segments, now) == segments
  {
    forall i: nat { UnlinksListed(segments, now, 0, i); }
  }

  /**
   * Expiry goes by age alone: a segment that began thirty days ago or earlier has its file unlinked and leaves
   * the fields, and a younger one keeps its description and its file.
   */
  lemma ExpiryExactly(o: Options, s: Logger, d: Disk, now: int, i: nat)
    requires InSync(o, s, d) && i in s.segments
    ensures i in d.files
    ensures var (t, ops, ok) := Expire(o, s, now);
            var left := Replay(d, ops).files;
            if now - s.segments[i].createdAt >= 2_592_000_000
            then Unlink(i) in ops && i !in t.segments && i !in left
            else Unlink(i) !in ops && i in t.segments && t.segments[i] == s.segments[i] && i in left && left[i] == d.files[i]
  {
    SegmentsSmall(o, s, d);
    UnlinksListed(s.segments, now, 0, i);
    ExpireActs(o, s, d, now, i);
    hide UnlinkOps, Replay, InSync, Expire;
  }

  lemma SegmentsSmall(o: Options, s: Logger, d: Disk)
    requires InSync(o, s, d)
    ensures s.segments.Keys == d.files.Keys && forall i | i in s.segments :: i < AUDIT_MAX_SEGMENTS
  {
    MaxSegmentsAtMost(o);
    hide MaxSegments;
  }
}
