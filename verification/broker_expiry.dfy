/** Expiry record by record, and what retention may forget. */
module BrokerExpiry {
  import opened Wrappers
  import opened Broker
  import opened BrokerInvariants
  import opened BrokerSteps
  import opened BrokerRuns

  /** What expiry makes of one lease. */
  function CheckedLease(lease: Lease, now: int): Lease {
    if lease.revokedAt == None && ExpiryReason(lease, now).Some? then RevokedLease(lease, ExpiryReason(lease, now).value, now) else lease
  }

  /** What expiry makes of one request, given its lease. */
  function CheckedRequest(s: Broker, r: nat, now: int): AccessRequest
    requires r < |s.requests|
  {
    var request := s.requests[r];
    if request.status == Pending then
      if request.expiresAt <= now then EndedRequest(request, RequestExpired, now) else request
    else if r in s.requestIds && request.leaseId.Some? && request.leaseId.value < |s.leases|
            && s.leases[request.leaseId.value].revokedAt == None && ExpiryReason(s.leases[request.leaseId.value], now).Some?
    then EndedRequest(request, RevokedStatus(ExpiryReason(s.leases[request.leaseId.value], now).value), now)
    else request
  }

  lemma {:induction false} ExpireLeasesAt(s: Broker, ids: seq<nat>, now: int, l: nat)
    requires Within(ids, |s.leases|) && l < |s.leases|
    ensures ExpireLeases(s, ids, now).leases[l] == if l in ids then CheckedLease(s.leases[l], now) else s.leases[l]
    decreases |ids|
  {
    if ids != [] {
      ExpireLeasesAt(CheckLease(s, ids[0], now), ids[1..], now, l);
    }
  }

  lemma {:induction false} ExpireRequestsAt(s: Broker, ids: seq<nat>, now: int, r: nat)
    requires Within(ids, |s.requests|) && r < |s.requests|
    ensures ExpireRequests(s, ids, now).requests[r] ==
            if r in ids && s.requests[r].status == Pending && s.requests[r].expiresAt <= now
            then EndedRequest(s.requests[r], RequestExpired, now) else s.requests[r]
    decreases |ids|
  {
    if ids != [] {
      ExpireRequestsAt(CheckRequest(s, ids[0], now), ids[1..], now, r);
    }
  }

  /** A request changes in the lease loop only with the one lease it points at. */
  lemma {:induction false} ExpireLeasesRequest(s: Broker, ids: seq<nat>, now: int, r: nat)
    requires Structured(s) && Coupled(s) && Within(ids, |s.leases|) && r < |s.requests|
    ensures var request := s.requests[r];
            ExpireLeases(s, ids, now).requests[r] ==
            if r in s.requestIds && request.leaseId.Some? && request.leaseId.value in ids
               && s.leases[request.leaseId.value].revokedAt == None && ExpiryReason(s.leases[request.leaseId.value], now).Some?
            then EndedRequest(request, RevokedStatus(ExpiryReason(s.leases[request.leaseId.value], now).value), now)
            else request
    decreases |ids|
  {
    if ids != [] {
      var l := ids[0];
      var next := CheckLease(s, l, now);
      assert LeaseCoupled(s, l) && RequestCoupled(s, r);
      if next != s {
        RevokeKeepsCoupled(s, l, ExpiryReason(s.leases[l], now).value, now);
      }
      hide Structured, Coupled, RequestCoupled, ExpiryReason;
      ExpireLeasesRequest(next, ids[1..], now, r);
    }
  }

  /** Expiry is pointwise: the order in which the loops meet the records does not matter. */
  lemma ExpirePointwise(s: Broker, now: int)
    requires Inv(s, now)
    ensures var t := ExpireRecords(s, now);
            && (forall l | 0 <= l < |s.leases| :: t.leases[l] == CheckedLease(s.leases[l], now))
            && (forall r | 0 <= r < |s.requests| :: t.requests[r] == CheckedRequest(s, r, now))
  {
    var half := ExpireRequests(s, s.requestIds, now);
    var t := ExpireRecords(s, now);
    ExpireRequestsReaches(s, s.requestIds, now);
    forall l | 0 <= l < |s.leases| ensures t.leases[l] == CheckedLease(s.leases[l], now) {
      ExpireLeasesAt(half, s.leaseIds, now, l);
      assert LeaseCoupled(s, l);
    }
    forall r | 0 <= r < |s.requests| ensures t.requests[r] == CheckedRequest(s, r, now) {
      RequestExpires(s, r, now);
    }
  }

  lemma RequestExpires(s: Broker, r: nat, now: int)
    requires Inv(s, now) && Inv(ExpireRequests(s, s.requestIds, now), now) && r < |s.requests|
    ensures ExpireRecords(s, now).requests[r] == CheckedRequest(s, r, now)
  {
    var half := ExpireRequests(s, s.requestIds, now);
    assert RequestCoupled(s, r);
    if s.requests[r].leaseId.Some? {
      assert LeaseCoupled(s, s.requests[r].leaseId.value);
    }
    ExpireRequestsAt(s, s.requestIds, now, r);
    ExpireLeasesRequest(half, s.leaseIds, now, r);
    hide Inv;
  }

  // ---------------------------------------------------------------- retention

  /** A request that is old and ended after expiry was so before: its lease cannot have expired just now. */
  lemma RetiredBefore(s: Broker, r: nat, now: int)
    requires Inv(s, now) && r < |s.requests| && r in s.requestIds
    requires RequestRetired(CheckedRequest(s, r, now), now - TERMINAL_RECORD_RETENTION_MS)
    ensures s.requests[r].status in {Denied, RequestExpired, RequestRevoked}
    ensures s.requests[r].terminalAt.Some? && s.requests[r].terminalAt.value + TERMINAL_RECORD_RETENTION_MS <= now
  {
    assert RequestCoupled(s, r);
  }

  /** A record maintenance forgets ended at least fifteen minutes ago, and it was never a live one. */
  lemma RetentionForgetsOldEnds(s: Broker, clock: int, now: int, r: nat)
    requires Inv(s, clock) && clock <= now && r in s.requestIds && r !in Maintain(s, now).requestIds
    ensures r < |s.requests| && s.requests[r].status in {Denied, RequestExpired, RequestRevoked}
    ensures s.requests[r].terminalAt.Some? && s.requests[r].terminalAt.value + TERMINAL_RECORD_RETENTION_MS <= now
  {
    assert IdsInHeap(s);
    hide Inv;
    LaterKeepsInv(s, clock, now);
    ExpirePointwise(s, now);
    RetiredBefore(s, r, now);
  }

  /**
   * Retention never forgets a granted request: its lease lasts at most ten minutes and ends before the
   * fifteen-minute cutoff reaches the grant.
   */
  lemma RetentionKeepsGranted(x: Execution, i: nat, r: nat, now: int)
    requires Behaves(x) && i < |x.states| && Clock(x, i) <= now
    requires r in x.states[i].requestIds
    ensures var s := x.states[i];
            IdsInHeap(s) && r < |s.requests| && (s.requests[r].status in {Pending, Granted} ==> r in Maintain(s, now).requestIds)
  {
    RunKeepsInv(x, i);
    if r !in Maintain(x.states[i], now).requestIds {
      RetentionForgetsOldEnds(x.states[i], Clock(x, i), now, r);
    }
  }
}
