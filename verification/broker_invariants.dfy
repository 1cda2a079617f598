/** What every segment of the broker keeps. */
module BrokerInvariants {
  import opened Wrappers
  import opened Policy
  import opened Broker

  // ------------------------------------------------------------ definitions

  ghost predicate Increasing(ids: seq<nat>) {
    forall i, j | 0 <= i < j < |ids| :: ids[i] < ids[j]
  }

  /** Identifiers resolve, and a lease belongs to the session of its request. */
  ghost predicate Structured(s: Broker) {
    && IdsInHeap(s)
    && Increasing(s.requestIds) && Increasing(s.leaseIds)
    && (forall r | 0 <= r < |s.requests| :: s.requests[r].session < |s.contexts|)
    && (forall l | 0 <= l < |s.leases| ::
          s.leases[l].requestId < |s.requests| && s.leases[l].session == s.requests[s.leases[l].requestId].session)
    && (forall c | 0 <= c < |s.commands| :: s.commands[c].lease < |s.leases|)
  }

  /** The request of a lease points back at it, and an unrevoked lease keeps its request granted. */
  ghost predicate LeaseCoupled(s: Broker, l: nat)
    requires l < |s.leases| && s.leases[l].requestId < |s.requests|
  {
    var request := s.requests[s.leases[l].requestId];
    && request.leaseId == Some(l)
    && (s.leases[l].revokedAt == None ==> l in s.leaseIds && request.status == Granted)
  }

  /** A pending request is recorded and open; a granted one points at its lease, unrevoked while recorded. */
  ghost predicate RequestCoupled(s: Broker, r: nat)
    requires r < |s.requests|
  {
    var request := s.requests[r];
    && (request.status == Pending ==> r in s.requestIds && request.terminalAt == None && request.leaseId == None)
    && (request.status != Pending ==> request.terminalAt.Some?)
    && (request.leaseId.Some? ==> request.leaseId.value < |s.leases| && s.leases[request.leaseId.value].requestId == r)
    && (request.status == Granted ==>
          && request.leaseId.Some?
          && request.terminalAt == Some(s.leases[request.leaseId.value].issuedAt)
          && (r in s.requestIds ==> s.leases[request.leaseId.value].revokedAt == None))
  }

  ghost predicate Coupled(s: Broker)
    requires Structured(s)
  {
    && (forall l | 0 <= l < |s.leases| :: LeaseCoupled(s, l))
    && (forall r | 0 <= r < |s.requests| :: RequestCoupled(s, r))
  }

  /** The broker lease, the policy lease and the signed capability describe the same grant. */
  ghost predicate InStep(lease: Lease, secret: nat) {
    var p, c := lease.policy, lease.capability.claims;
    && VerifyCapability(secret, lease.capability)
    && p.capabilityId == c.capabilityId
    && lease.clientId == p.clientId == c.clientId == c.audience
    && lease.taskId == p.taskId == c.taskId
    && lease.browserInstanceId == p.browserProfileInstance == c.browserProfileInstance
    && lease.tabId == p.tabId == c.tabId
    && lease.documentId == p.documentId == c.documentId
    && lease.origin == p.topLevelOrigin == c.topLevelOrigin
    && c.policyVersion == POLICY_VERSION
    && lease.issuedAt == p.issuedAt == c.issuedAt
    && lease.expiresAt == p.expiresAt == c.expiresAt
    && lease.lastUsedAt == p.lastUsedAt
    && p.idleTimeoutMs == c.idleTimeoutMs == LEASE_IDLE_TIMEOUT_MS
    && c.useLimit == LEASE_USE_LIMIT
    && (forall x | x in lease.scopes && x != DataEgressModel :: Fixed(x) in c.scopes)
    && (forall x | x in c.scopes :: x.Fixed? || x.ModelEgress?)
    && (p.state == Active <==> lease.revokedAt == None)
    && (p.state == LeaseState.Revoked ==> p.revokedAt.Some?)
  }

  /** The life of a lease so far, on a clock that has reached `clock`. */
  ghost predicate LeaseTimes(lease: Lease, clock: int) {
    && 0 < lease.issuedAt <= lease.lastUsedAt <= clock
    && lease.lastUsedAt <= lease.expiresAt
    && lease.issuedAt < lease.expiresAt <= lease.issuedAt + MAX_LEASE_TTL_MS
    && (lease.revokedAt.Some? ==> lease.revokedAt.value <= clock)
  }

  ghost predicate RequestTimes(request: AccessRequest, clock: int) {
    && 0 < request.createdAt <= clock
    && request.expiresAt == request.createdAt + ACCESS_REQUEST_TTL_MS
    && (request.terminalAt.Some? ==> request.terminalAt.value <= clock)
  }

  ghost predicate Synced(s: Broker, clock: int) {
    && (forall l | 0 <= l < |s.leases| :: InStep(s.leases[l], s.secret) && LeaseTimes(s.leases[l], clock))
    && (forall r | 0 <= r < |s.requests| :: RequestTimes(s.requests[r], clock))
  }

  /** The part of the invariant about identifiers, coupling, policy state and time. */
  ghost predicate Records(s: Broker, clock: int) {
    Structured(s) && Coupled(s) && Synced(s, clock)
  }

  // -------------------------------------------------------- record primitives

  lemma LaterKeepsRecords(s: Broker, clock: int, now: int)
    requires Records(s, clock) && clock <= now
    ensures Records(s, now)
  {
  }

  lemma RevokedStaysInStep(lease: Lease, secret: nat, reason: string, now: int)
    requires InStep(lease, secret) && LeaseTimes(lease, now) && lease.revokedAt == None
    ensures InStep(RevokedLease(lease, reason, now), secret) && LeaseTimes(RevokedLease(lease, reason, now), now)
  {
  }

  lemma RevokeKeepsCoupled(s: Broker, l: nat, reason: string, now: int)
    requires Structured(s) && Coupled(s) && l < |s.leases|
    ensures Structured(RevokeLease(s, l, reason, now)) && Coupled(RevokeLease(s, l, reason, now))
  {
    var after := RevokeLease(s, l, reason, now);
    if s.leases[l].revokedAt == None {
      var r := s.leases[l].requestId;
      assert LeaseCoupled(s, l) && RequestCoupled(s, r);
      forall k | 0 <= k < |after.leases| ensures LeaseCoupled(after, k) {
        hide RequestCoupled, Increasing;
        assert LeaseCoupled(s, k);
      }
      forall k | 0 <= k < |after.requests| ensures RequestCoupled(after, k) {
        hide Increasing;
        assert RequestCoupled(s, k);
      }
    }
  }

  lemma RevokeKeepsRecords(s: Broker, l: nat, reason: string, now: int)
    requires Records(s, now) && l < |s.leases|
    ensures Records(RevokeLease(s, l, reason, now), now)
  {
    RevokeKeepsCoupled(s, l, reason, now);
    if s.leases[l].revokedAt == None {
      RevokedStaysInStep(s.leases[l], s.secret, reason, now);
    }
  }

  /** A pending request ends without a grant. */
  lemma EndKeepsRecords(s: Broker, r: nat, status: Status, now: int)
    requires Records(s, now) && r < |s.requests| && s.requests[r].status == Pending
    requires status != Pending && status != Granted
    ensures Records(PutRequest(s, r, EndedRequest(s.requests[r], status, now)), now)
  {
    var after := PutRequest(s, r, EndedRequest(s.requests[r], status, now));
    assert RequestCoupled(s, r);
    forall k | 0 <= k < |after.leases| ensures LeaseCoupled(after, k) {
      assert LeaseCoupled(s, k);
    }
    forall k | 0 <= k < |after.requests| ensures RequestCoupled(after, k) {
      assert RequestCoupled(s, k);
    }
  }

  /** Forgetting entries of either map, as long as no pending request or unrevoked lease is among them. */
  ghost predicate Forgets(s: Broker, requestIds: seq<nat>, leaseIds: seq<nat>)
    requires IdsInHeap(s)
  {
    && Increasing(requestIds) && Increasing(leaseIds)
    && |requestIds| <= |s.requestIds| && |leaseIds| <= |s.leaseIds|
    && (forall r | r in requestIds :: r in s.requestIds)
    && (forall l | l in leaseIds :: l in s.leaseIds)
    && (forall r | r in s.requestIds && r !in requestIds :: s.requests[r].status != Pending)
    && (forall l | l in s.leaseIds && l !in leaseIds :: s.leases[l].revokedAt.Some?)
  }

  lemma ForgetKeepsRecords(s: Broker, requestIds: seq<nat>, leaseIds: seq<nat>, now: int)
    requires Records(s, now) && Forgets(s, requestIds, leaseIds)
    ensures Records(s.(requestIds := requestIds, leaseIds := leaseIds), now)
  {
    var after := s.(requestIds := requestIds, leaseIds := leaseIds);
    assert IdsInHeap(after) by {
      forall i | 0 <= i < |requestIds| ensures requestIds[i] < |s.requests| {
        assert requestIds[i] in s.requestIds;
      }
      forall i | 0 <= i < |leaseIds| ensures leaseIds[i] < |s.leases| {
        assert leaseIds[i] in s.leaseIds;
      }
    }
    forall k | 0 <= k < |after.leases| ensures LeaseCoupled(after, k) {
      assert LeaseCoupled(s, k);
    }
    forall k | 0 <= k < |after.requests| ensures RequestCoupled(after, k) {
      assert RequestCoupled(s, k);
    }
  }

  lemma AddRequestKeepsRecords(s: Broker, request: AccessRequest, now: int)
    requires Records(s, now)
    requires request.session < |s.contexts| && RequestTimes(request, now)
    requires request.status == Pending && request.terminalAt == None && request.leaseId == None
    ensures Records(AddRequest(s, request), now)
  {
    var after := AddRequest(s, request);
    assert Structured(after) by {
      assert after.requestIds[|s.requestIds|] == |s.requests|;
    }
    forall k | 0 <= k < |after.leases| ensures LeaseCoupled(after, k) {
      assert LeaseCoupled(s, k);
    }
    forall k | 0 <= k < |after.requests| ensures RequestCoupled(after, k) {
      if k < |s.requests| {
        assert RequestCoupled(s, k);
      } else {
        assert after.requestIds[|s.requestIds|] == k;
      }
    }
  }

  lemma AddLeaseKeepsRecords(s: Broker, r: nat, lease: Lease, now: int)
    requires Records(s, now) && r < |s.requests| && s.requests[r].status == Pending
    requires lease.requestId == r && lease.session == s.requests[r].session
    requires lease.revokedAt == None && lease.issuedAt == now
    requires InStep(lease, s.secret) && LeaseTimes(lease, now)
    ensures Records(AddLease(s, r, lease, now), now)
  {
    var after := AddLease(s, r, lease, now);
    assert RequestCoupled(s, r);
    assert after.leaseIds[|s.leaseIds|] == |s.leases|;
    assert Structured(after);
    forall k | 0 <= k < |after.leases| ensures LeaseCoupled(after, k) {
      if k < |s.leases| {
        assert LeaseCoupled(s, k);
        assert after.leases[k] == s.leases[k];
      }
    }
    forall k | 0 <= k < |after.requests| ensures RequestCoupled(after, k) {
      assert RequestCoupled(s, k);
      if k != r && s.requests[k].leaseId.Some? {
        assert after.leases[s.requests[k].leaseId.value] == s.leases[s.requests[k].leaseId.value];
      }
    }
  }

  /** Counting on a lease: only its counters and its last use change. */
  lemma CountKeepsRecords(s: Broker, l: nat, lease: Lease, now: int)
    requires Records(s, now) && l < |s.leases|
    requires lease.requestId == s.leases[l].requestId && lease.session == s.leases[l].session
    requires lease.revokedAt == s.leases[l].revokedAt && lease.issuedAt == s.leases[l].issuedAt
    requires InStep(lease, s.secret) && LeaseTimes(lease, now)
    ensures Records(PutLease(s, l, lease), now)
  {
    var after := PutLease(s, l, lease);
    forall k | 0 <= k < |after.leases| ensures LeaseCoupled(after, k) {
      assert LeaseCoupled(s, k);
    }
    forall k | 0 <= k < |after.requests| ensures RequestCoupled(after, k) {
      assert RequestCoupled(s, k);
    }
  }

  /** Commands, contexts and browsers may change freely as long as identifiers resolve. */
  lemma AroundKeepsRecords(s: Broker, after: Broker, now: int)
    requires Records(s, now)
    requires after.requests == s.requests && after.requestIds == s.requestIds
    requires after.leases == s.leases && after.leaseIds == s.leaseIds && after.secret == s.secret
    requires |after.contexts| >= |s.contexts|
    requires forall c | 0 <= c < |after.commands| :: after.commands[c].lease < |s.leases|
    ensures Records(after, now)
  {
    forall k | 0 <= k < |after.leases| ensures LeaseCoupled(after, k) {
      assert LeaseCoupled(s, k);
    }
    forall k | 0 <= k < |after.requests| ensures RequestCoupled(after, k) {
      assert RequestCoupled(s, k);
    }
  }
}
