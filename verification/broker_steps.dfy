/** Every segment keeps the whole invariant and moves every record forward only. */
module BrokerSteps {
  import opened Wrappers
  import opened Policy
  import opened Broker
  import opened BrokerInvariants
  import opened BrokerLedger
  import opened BrokerWindows
  import opened BrokerBounds

  /** The invariant of the broker on a clock that has reached `clock`. */
  ghost predicate Inv(s: Broker, clock: int) {
    && Records(s, clock)
    && Ledger(s, clock)
    && LeaseWindows(s, clock)
    && RequestWindows(s, clock)
    && Bounded(s)
  }

  /** Pending may become anything, granted may end, and the three ends are final. */
  predicate Forward(before: Status, after: Status) {
    || before == after
    || before == Pending
    || (before == Granted && (after == RequestExpired || after == RequestRevoked))
  }

  ghost predicate RequestMoves(before: AccessRequest, after: AccessRequest) {
    && after.session == before.session && after.clientId == before.clientId && after.taskId == before.taskId
    && after.scopes == before.scopes && after.provider == before.provider
    && after.createdAt == before.createdAt && after.expiresAt == before.expiresAt
    && Forward(before.status, after.status)
    && (before.leaseId.Some? ==> after.leaseId == before.leaseId)
    && (before.status != Pending && before.status != Granted ==> after == before)
  }

  ghost predicate LeaseMoves(before: Lease, after: Lease) {
    && after.requestId == before.requestId && after.session == before.session
    && after.browserInstanceId == before.browserInstanceId && after.tabId == before.tabId
    && after.documentId == before.documentId && after.origin == before.origin
    && after.scopes == before.scopes && after.capability == before.capability
    && after.issuedAt == before.issuedAt && after.expiresAt == before.expiresAt
    && after.policy.remainingUses <= before.policy.remainingUses
    && (after.windowStartedAt == before.windowStartedAt || after.windowStartedAt >= before.windowStartedAt + LEASE_COMMAND_WINDOW_MS)
    && (before.revokedAt.Some? ==> after.revokedAt == before.revokedAt && after.revokeReason == before.revokeReason)
  }

  /** No record is replaced, no end is undone, and nothing but the counters of a lease goes on changing. */
  ghost predicate Moves(s: Broker, t: Broker) {
    && |s.requests| <= |t.requests| && |s.leases| <= |t.leases| && |s.commands| <= |t.commands| && |s.contexts| <= |t.contexts|
    && t.secret == s.secret
    && (forall r | 0 <= r < |s.requests| :: RequestMoves(s.requests[r], t.requests[r]))
    && (forall l | 0 <= l < |s.leases| :: LeaseMoves(s.leases[l], t.leases[l]))
  }

  ghost predicate Reaches(s: Broker, t: Broker, now: int) {
    Inv(t, now) && Moves(s, t)
  }

  lemma MovesOn(s: Broker, t: Broker, u: Broker)
    requires Moves(s, t) && Moves(t, u)
    ensures Moves(s, u)
  {
    forall r | 0 <= r < |s.requests| ensures RequestMoves(s.requests[r], u.requests[r]) {
      assert RequestMoves(s.requests[r], t.requests[r]) && RequestMoves(t.requests[r], u.requests[r]);
    }
    forall l | 0 <= l < |s.leases| ensures LeaseMoves(s.leases[l], u.leases[l]) {
      assert LeaseMoves(s.leases[l], t.leases[l]) && LeaseMoves(t.leases[l], u.leases[l]);
    }
  }

  lemma LaterKeepsInv(s: Broker, clock: int, now: int)
    requires Inv(s, clock) && clock <= now
    ensures Inv(s, now)
  {
    LaterKeepsRecords(s, clock, now);
    LaterKeepsLedger(s, clock, now);
    LaterKeepsLeaseWindows(s, clock, now);
    LaterKeepsRequestWindows(s, clock, now);
  }

  // ------------------------------------------------------- record primitives

  lemma RevokeMoves(s: Broker, l: nat, reason: string, now: int)
    requires Structured(s) && Coupled(s) && l < |s.leases|
    ensures Moves(s, RevokeLease(s, l, reason, now))
    ensures Bounded(s) ==> Bounded(RevokeLease(s, l, reason, now))
  {
    var t := RevokeLease(s, l, reason, now);
    assert LeaseCoupled(s, l);
    if Bounded(s) {
      ShrinkKeepsBounded(s, t);
    }
  }

  /** What `revokeLease` leaves alone. */
  lemma RevokeTouches(s: Broker, l: nat, reason: string, now: int)
    requires l < |s.leases|
    ensures var t := RevokeLease(s, l, reason, now);
            && t == s.(requests := t.requests, leases := t.leases)
            && |t.requests| == |s.requests| && |t.leases| == |s.leases|
            && (forall k | 0 <= k < |s.leases| :: t.leases[k].windowStartedAt == s.leases[k].windowStartedAt
                                                  && t.leases[k].commandsInWindow == s.leases[k].commandsInWindow)
            && (forall r | 0 <= r < |s.requests| :: t.requests[r].session == s.requests[r].session
                                                    && t.requests[r].createdAt == s.requests[r].createdAt)
  {
  }

  lemma RevokeReaches(s: Broker, l: nat, reason: string, now: int)
    requires Inv(s, now) && l < |s.leases|
    ensures Reaches(s, RevokeLease(s, l, reason, now), now)
  {
    var t := RevokeLease(s, l, reason, now);
    RevokeTouches(s, l, reason, now);
    assert Structured(s) && Coupled(s);
    hide Structured, Coupled, Ledger, Bounded, LeaseWindows, RequestWindows, Moves, RevokeLease;
    RevokeMoves(s, l, reason, now);
    RevokeKeepsRecords(s, l, reason, now);
    RevokeKeepsLedger(s, l, reason, now);
    QuietKeepsLeaseWindows(s, t, now);
    QuietKeepsRequestWindows(s, t, now);
  }

  lemma CheckLeaseReaches(s: Broker, l: nat, now: int)
    requires Inv(s, now) && l < |s.leases|
    ensures Reaches(s, CheckLease(s, l, now), now)
  {
    if s.leases[l].revokedAt == None && ExpiryReason(s.leases[l], now).Some? {
      RevokeReaches(s, l, ExpiryReason(s.leases[l], now).value, now);
    }
  }

  lemma EndReaches(s: Broker, r: nat, status: Status, now: int)
    requires Inv(s, now) && r < |s.requests| && s.requests[r].status == Pending
    requires status != Pending && status != Granted
    ensures Reaches(s, PutRequest(s, r, EndedRequest(s.requests[r], status, now)), now)
  {
    var t := PutRequest(s, r, EndedRequest(s.requests[r], status, now));
    EndKeepsRecords(s, r, status, now);
    QuietKeepsLedger(s, t, now);
    QuietKeepsLeaseWindows(s, t, now);
    QuietKeepsRequestWindows(s, t, now);
    assert RequestCoupled(s, r);
    ShrinkKeepsBounded(s, t);
  }

  lemma ForgetReaches(s: Broker, requestIds: seq<nat>, leaseIds: seq<nat>, now: int)
    requires Inv(s, now) && Forgets(s, requestIds, leaseIds)
    ensures Reaches(s, s.(requestIds := requestIds, leaseIds := leaseIds), now)
  {
    var t := s.(requestIds := requestIds, leaseIds := leaseIds);
    ForgetKeepsRecords(s, requestIds, leaseIds, now);
    QuietKeepsLedger(s, t, now);
    QuietKeepsLeaseWindows(s, t, now);
    QuietKeepsRequestWindows(s, t, now);
    ShrinkKeepsBounded(s, t);
  }

  /** Changes to contexts, browsers and the maintenance time that open no request window. */
  lemma AroundReaches(s: Broker, t: Broker, now: int)
    requires Inv(s, now)
    requires t == s.(contexts := t.contexts, browsers := t.browsers, nextMaintenanceAt := t.nextMaintenanceAt)
    requires |t.contexts| >= |s.contexts|
    requires forall ctx | 0 <= ctx < |s.contexts| :: t.contexts[ctx].window == s.contexts[ctx].window
    requires forall ctx | |s.contexts| <= ctx < |t.contexts| :: t.contexts[ctx].window == None
    ensures Reaches(s, t, now)
  {
    AroundKeepsRecords(s, t, now);
    QuietKeepsLedger(s, t, now);
    QuietKeepsLeaseWindows(s, t, now);
    QuietKeepsRequestWindows(s, t, now);
  }

  // -------------------------------------------------------------- expiry

  lemma {:induction false} ExpireRequestsReaches(s: Broker, ids: seq<nat>, now: int)
    requires Inv(s, now) && Within(ids, |s.requests|)
    ensures Reaches(s, ExpireRequests(s, ids, now), now)
    decreases |ids|
  {
    StaysPut(s, now);
    hide Records, Ledger, LeaseWindows, RequestWindows, Bounded, Moves;
    if ids != [] {
      var next := CheckRequest(s, ids[0], now);
      if s.requests[ids[0]].status == Pending && s.requests[ids[0]].expiresAt <= now {
        EndReaches(s, ids[0], RequestExpired, now);
      }
      ExpireRequestsReaches(next, ids[1..], now);
      MovesOn(s, next, ExpireRequests(s, ids, now));
    }
  }

  lemma {:induction false} ExpireLeasesReaches(s: Broker, ids: seq<nat>, now: int)
    requires Inv(s, now) && Within(ids, |s.leases|)
    ensures Reaches(s, ExpireLeases(s, ids, now), now)
    decreases |ids|
  {
    StaysPut(s, now);
    hide Records, Ledger, LeaseWindows, RequestWindows, Bounded, Moves;
    if ids != [] {
      var next := CheckLease(s, ids[0], now);
      CheckLeaseReaches(s, ids[0], now);
      ExpireLeasesReaches(next, ids[1..], now);
      MovesOn(s, next, ExpireLeases(s, ids, now));
    }
  }

  lemma ExpireReaches(s: Broker, now: int)
    requires Inv(s, now)
    ensures Reaches(s, ExpireRecords(s, now), now)
  {
    var half := ExpireRequests(s, s.requestIds, now);
    ExpireRequestsReaches(s, s.requestIds, now);
    ExpireLeasesReaches(half, s.leaseIds, now);
    MovesOn(s, half, ExpireRecords(s, now));
  }

  lemma {:induction false} KeptRequestsIncrease(requests: seq<AccessRequest>, ids: seq<nat>, cutoff: int)
    requires Increasing(ids) && Within(ids, |requests|)
    ensures Increasing(KeepRequests(requests, ids, cutoff))
    decreases |ids|
  {
    if ids != [] {
      var kept := KeepRequests(requests, ids[1..], cutoff);
      KeptRequestsIncrease(requests, ids[1..], cutoff);
      forall i | 0 <= i < |kept| ensures ids[0] < kept[i] {
        assert kept[i] in ids[1..];
      }
    }
  }

  lemma {:induction false} KeptLeasesIncrease(leases: seq<Lease>, ids: seq<nat>, cutoff: int)
    requires Increasing(ids) && Within(ids, |leases|)
    ensures Increasing(KeepLeases(leases, ids, cutoff))
    decreases |ids|
  {
    if ids != [] {
      var kept := KeepLeases(leases, ids[1..], cutoff);
      KeptLeasesIncrease(leases, ids[1..], cutoff);
      forall i | 0 <= i < |kept| ensures ids[0] < kept[i] {
        assert kept[i] in ids[1..];
      }
    }
  }

  /** Retention forgets ended records only. */
  lemma PruneReaches(s: Broker, cutoff: int, now: int)
    requires Inv(s, now)
    ensures Reaches(s, s.(requestIds := KeepRequests(s.requests, s.requestIds, cutoff),
                          leaseIds := KeepLeases(s.leases, s.leaseIds, cutoff)), now)
  {
    KeptRequestsIncrease(s.requests, s.requestIds, cutoff);
    KeptLeasesIncrease(s.leases, s.leaseIds, cutoff);
    ForgetReaches(s, KeepRequests(s.requests, s.requestIds, cutoff), KeepLeases(s.leases, s.leaseIds, cutoff), now);
  }

  lemma MaintainReaches(s: Broker, now: int)
    requires Inv(s, now)
    ensures Reaches(s, Maintain(s, now), now)
  {
    var expired := ExpireRecords(s, now);
    ExpireReaches(s, now);
    if now >= s.nextMaintenanceAt {
      var cutoff := now - TERMINAL_RECORD_RETENTION_MS;
      PruneReaches(expired, cutoff, now);
      var pruned := expired.(requestIds := KeepRequests(expired.requests, expired.requestIds, cutoff),
                             leaseIds := KeepLeases(expired.leases, expired.leaseIds, cutoff));
      AroundReaches(pruned, Maintain(s, now), now);
      hide Inv, Moves, ExpireRecords, KeepRequests, KeepLeases;
      MovesOn(s, expired, pruned);
      MovesOn(s, pruned, Maintain(s, now));
    }
  }

  // --------------------------------------------------------------- requests

  lemma ReserveRateReaches(s: Broker, ctx: nat, now: int)
    requires Inv(s, now) && ctx < |s.contexts| && 0 < now
    ensures Reaches(s, ReserveRate(s, ctx, now).0, now)
  {
    var t := ReserveRate(s, ctx, now).0;
    AroundKeepsRecords(s, t, now);
    QuietKeepsLedger(s, t, now);
    QuietKeepsLeaseWindows(s, t, now);
    ReserveKeepsRequestWindows(s, ctx, now);
  }

  /** Creating a request, in the segment that reserved its rate. */
  lemma CreateReaches(s: Broker, ctx: nat, params: RequestParams, now: int)
    requires Inv(s, now) && ctx < |s.contexts| && 0 < now
    requires ReserveRate(s, ctx, now).1 == None
    ensures Reaches(ReserveRate(s, ctx, now).0, CreateRequest(ReserveRate(s, ctx, now).0, ctx, params, now).0, now)
  {
    var reserved := ReserveRate(s, ctx, now).0;
    ReserveRateReaches(s, ctx, now);
    ReserveKeepsRequestWindows(s, ctx, now);
    CountsAreTrue(reserved, ctx);
    if PendingRefusal(reserved, ctx) == None {
      AddRequestReaches(reserved, ctx, params, now);
    }
  }

  lemma AddRequestReaches(s: Broker, ctx: nat, params: RequestParams, now: int)
    requires Inv(s, now) && ctx < |s.contexts| && 0 < now
    requires |PendingSet(s.requests)| < ACCESS_PENDING_GLOBAL_LIMIT
    requires |SessionPendingSet(s.requests, ctx)| < ACCESS_PENDING_PER_SESSION_LIMIT
    requires RateReserved(s, ctx, now)
    ensures Reaches(s, AddRequest(s.(requestIds := RequestRoom(s).0), NewRequest(s, ctx, params, now)), now)
    ensures RequestRoom(s).1
  {
    RequestRoomNeverFails(s);
    var roomy := s.(requestIds := RequestRoom(s).0, leaseIds := s.leaseIds);
    ForgetReaches(s, roomy.requestIds, s.leaseIds, now);
    var request := NewRequest(s, ctx, params, now);
    var t := AddRequest(roomy, request);
    AddRequestKeepsRecords(roomy, request, now);
    QuietKeepsLedger(roomy, t, now);
    QuietKeepsLeaseWindows(roomy, t, now);
    CreateKeepsRequestWindows(roomy, ctx, request, now);
    AddRequestKeepsBounded(roomy, request);
  }

  lemma RoomAvailable(s: Broker, now: int)
    requires Inv(s, now)
    ensures IdsInHeap(s) && RequestRoom(s).1
  {
    RequestRoomNeverFails(s);
  }

  lemma RequestReaches(s: Broker, ctx: nat, params: RequestParams, now: int)
    requires Inv(s, now) && ctx < |s.contexts| && 0 < now
    ensures Reaches(s, RequestAccess(s, ctx, params, now).0, now)
  {
    if RequestParamsValid(params) {
      var expired := ExpireRecords(s, now);
      ExpireReaches(s, now);
      ReserveRateReaches(expired, ctx, now);
      var (reserved, refusal) := ReserveRate(expired, ctx, now);
      MovesOn(s, expired, reserved);
      if refusal == None {
        CreateReaches(expired, ctx, params, now);
        hide Inv, Moves, CreateRequest;
        MovesOn(s, reserved, CreateRequest(reserved, ctx, params, now).0);
      }
    }
  }

  // ----------------------------------------------------------------- grants

  lemma GrantedInStep(s: Broker, request: AccessRequest, params: GrantParams, capability: Capability, now: int)
    requires IssueCapability(s.secret, GrantClaims(s, request, params, now)) == Some(capability)
    requires GrantParamsValid(params) && 0 < now
    ensures InStep(NewLease(request, params, capability, now), s.secret)
    ensures LeaseTimes(NewLease(request, params, capability, now), now)
  {
    var lease := NewLease(request, params, capability, now);
    var scopes := Dedup(params.scopes);
    forall x | x in lease.scopes && x != DataEgressModel ensures Fixed(x) in capability.claims.scopes {
      var i :| 0 <= i < |scopes| && scopes[i] == x;
      assert capability.claims.scopes[i] == Fixed(x);
    }
  }

  lemma GrantReaches(s: Broker, ctx: nat, params: GrantParams, now: int)
    requires Inv(s, now) && ctx < |s.contexts| && 0 < now
    ensures Reaches(s, GrantAccess(s, ctx, params, now).0, now)
  {
    var refusal := GrantRefusal(s, ctx, params, now);
    StaysPut(s, now);
    if refusal == Some(AccessRequestHasExpired) {
      EndReaches(s, params.requestId, RequestExpired, now);
    } else if refusal == None {
      LeaseRoomExactly(s);
      var (kept, room) := LeaseRoom(s);
      var roomy := s.(requestIds := s.requestIds, leaseIds := kept);
      ForgetReaches(s, s.requestIds, kept, now);
      var request := s.requests[params.requestId];
      var capability := IssueCapability(s.secret, GrantClaims(s, request, params, now));
      hide Inv, Moves, InStep, LeaseTimes, IssueCapability, GrantClaims, LeaseRoom, Forgets;
      if room && capability.Some? {
        GrantedInStep(s, request, params, capability.value, now);
        LeaseReaches(roomy, params.requestId, NewLease(request, params, capability.value, now), now);
        MovesOn(s, roomy, GrantAccess(s, ctx, params, now).0);
      }
    }
  }

  lemma LeaseReaches(s: Broker, r: nat, lease: Lease, now: int)
    requires Inv(s, now) && r < |s.requests| && s.requests[r].status == Pending && |s.leaseIds| < LEASE_RECORD_LIMIT
    requires lease.requestId == r && lease.session == s.requests[r].session
    requires lease.revokedAt == None && lease.issuedAt == now && lease.windowStartedAt == now && lease.commandsInWindow == 0
    requires InStep(lease, s.secret) && LeaseTimes(lease, now)
    requires lease.policy.remainingUses == LEASE_USE_LIMIT && lease.inFlight == 0 && lease.remainingEgress == EgressBudget(lease)
    ensures Reaches(s, AddLease(s, r, lease, now), now)
  {
    var t := AddLease(s, r, lease, now);
    assert RequestCoupled(s, r);
    AddLeaseKeepsRecords(s, r, lease, now);
    AddLeaseKeepsLedger(s, r, lease, now);
    AddLeaseKeepsLeaseWindows(s, r, lease, now);
    QuietKeepsRequestWindows(s, t, now);
    ShrinkKeepsBounded(s, t);
  }

  // ------------------------------------------------------------ disconnects

  lemma {:induction false} RevokeOnBrowserReaches(s: Broker, ids: seq<nat>, instance: string, now: int)
    requires Inv(s, now) && Within(ids, |s.leases|)
    ensures Reaches(s, RevokeOnBrowser(s, ids, instance, now), now)
    decreases |ids|
  {
    StaysPut(s, now);
    hide Records, Ledger, LeaseWindows, RequestWindows, Bounded, Moves;
    if ids != [] {
      var next := if s.leases[ids[0]].browserInstanceId == instance then RevokeLease(s, ids[0], "BROWSER_DISCONNECTED", now) else s;
      RevokeReaches(s, ids[0], "BROWSER_DISCONNECTED", now);
      RevokeOnBrowserReaches(next, ids[1..], instance, now);
      MovesOn(s, next, RevokeOnBrowser(s, ids, instance, now));
    }
  }

  lemma {:induction false} RevokePendingReaches(s: Broker, ids: seq<nat>, session: nat, now: int)
    requires Inv(s, now) && Within(ids, |s.requests|)
    ensures Reaches(s, RevokePending(s, ids, session, now), now)
    decreases |ids|
  {
    StaysPut(s, now);
    hide Records, Ledger, LeaseWindows, RequestWindows, Bounded, Moves;
    if ids != [] {
      var r := ids[0];
      var ends := s.requests[r].session == session && s.requests[r].status == Pending;
      var next := if ends then PutRequest(s, r, EndedRequest(s.requests[r], RequestRevoked, now)) else s;
      if ends {
        EndReaches(s, r, RequestRevoked, now);
      }
      RevokePendingReaches(next, ids[1..], session, now);
      MovesOn(s, next, RevokePending(s, ids, session, now));
    }
  }

  lemma {:induction false} RevokeSessionReaches(s: Broker, ids: seq<nat>, session: nat, now: int)
    requires Inv(s, now) && Within(ids, |s.leases|)
    ensures Reaches(s, RevokeSession(s, ids, session, now), now)
    decreases |ids|
  {
    StaysPut(s, now);
    hide Records, Ledger, LeaseWindows, RequestWindows, Bounded, Moves;
    if ids != [] {
      var next := if s.leases[ids[0]].session == session then RevokeLease(s, ids[0], "AGENT_DISCONNECTED", now) else s;
      RevokeReaches(s, ids[0], "AGENT_DISCONNECTED", now);
      RevokeSessionReaches(next, ids[1..], session, now);
      MovesOn(s, next, RevokeSession(s, ids, session, now));
    }
  }

  lemma DisconnectReaches(s: Broker, ctx: nat, now: int)
    requires Inv(s, now) && ctx < |s.contexts|
    ensures Reaches(s, Disconnect(s, ctx, now), now)
  {
    match s.contexts[ctx].browserInstanceId
    case Some(instance) =>
      var released := s.(browsers := s.browsers - {instance});
      AroundReaches(s, released, now);
      RevokeOnBrowserReaches(released, s.leaseIds, instance, now);
      MovesOn(s, released, Disconnect(s, ctx, now));
    case None =>
      var ended := RevokePending(s, s.requestIds, ctx, now);
      RevokePendingReaches(s, s.requestIds, ctx, now);
      RevokeSessionReaches(ended, s.leaseIds, ctx, now);
      MovesOn(s, ended, Disconnect(s, ctx, now));
  }

  // --------------------------------------------------------------- commands

  lemma ReservedInStep(lease: Lease, secret: nat, now: int)
    requires InStep(lease, secret) && LeaseTimes(lease, now) && now < lease.expiresAt
    ensures InStep(ReserveCommand(lease, now).0, secret) && LeaseTimes(ReserveCommand(lease, now).0, now)
  {
    hide VerifyCapability;
  }

  lemma AdmitReaches(s: Broker, l: nat, kind: Kind, now: int)
    requires Inv(s, now) && l < |s.leases| && LeaseActive(s.leases[l], now)
    ensures Reaches(s, AdmitCommand(s, l, kind, now).0, now)
  {
    ReservedRecords(s, l, now);
    hide Inv, Moves, ReserveCommand;
    if ReserveCommand(s.leases[l], now).1.Some? {
      RefusedReaches(s, l, now);
    } else {
      AdmittedReaches(s, l, kind, now);
    }
  }

  lemma ReservedRecords(s: Broker, l: nat, now: int)
    requires Records(s, now) && l < |s.leases| && LeaseActive(s.leases[l], now)
    ensures Records(PutLease(s, l, ReserveCommand(s.leases[l], now).0), now)
  {
    ReservedInStep(s.leases[l], s.secret, now);
    CountKeepsRecords(s, l, ReserveCommand(s.leases[l], now).0, now);
  }

  /** What `reserveCommand` leaves alone. */
  lemma ReserveMoves(lease: Lease, now: int)
    ensures var (after, full) := ReserveCommand(lease, now);
            && LeaseMoves(lease, after)
            && (full.Some? ==> SameBalance(lease, after, now))
  {
  }

  lemma RefusedReaches(s: Broker, l: nat, now: int)
    requires Inv(s, now) && l < |s.leases| && ReserveCommand(s.leases[l], now).1.Some?
    requires Records(PutLease(s, l, ReserveCommand(s.leases[l], now).0), now)
    ensures Reaches(s, PutLease(s, l, ReserveCommand(s.leases[l], now).0), now)
  {
    var counted := PutLease(s, l, ReserveCommand(s.leases[l], now).0);
    ReserveMoves(s.leases[l], now);
    RefusedKeepsLeaseWindows(s, l, now);
    hide ReserveCommand, Records, LeaseWindows;
    QuietKeepsLedger(s, counted, now);
    QuietKeepsRequestWindows(s, counted, now);
    ShrinkKeepsBounded(s, counted);
  }

  lemma AdmittedReaches(s: Broker, l: nat, kind: Kind, now: int)
    requires Inv(s, now) && l < |s.leases| && ReserveCommand(s.leases[l], now).1 == None
    requires Records(PutLease(s, l, ReserveCommand(s.leases[l], now).0), now)
    ensures Reaches(s, AddCommand(PutLease(s, l, ReserveCommand(s.leases[l], now).0), Command(l, kind, now, AwaitBrowser)), now)
  {
    hide Ledger, LeaseWindows, Moves, ReserveCommand;
    AdmitKeepsLedger(s, l, kind, now);
    AdmitKeepsLeaseWindows(s, l, kind, now);
    AdmittedMoves(s, l, kind, now);
  }

  lemma AdmittedMoves(s: Broker, l: nat, kind: Kind, now: int)
    requires l < |s.leases|
    requires RequestWindows(s, now) && Bounded(s) && Structured(s)
    requires Records(PutLease(s, l, ReserveCommand(s.leases[l], now).0), now)
    ensures var t := AddCommand(PutLease(s, l, ReserveCommand(s.leases[l], now).0), Command(l, kind, now, AwaitBrowser));
            Records(t, now) && RequestWindows(t, now) && Bounded(t) && Moves(s, t)
  {
    var counted := PutLease(s, l, ReserveCommand(s.leases[l], now).0);
    var t := AddCommand(counted, Command(l, kind, now, AwaitBrowser));
    ReserveMoves(s.leases[l], now);
    hide ReserveCommand, Records, Increasing;
    AroundKeepsRecords(counted, t, now);
    QuietKeepsRequestWindows(s, t, now);
    ShrinkKeepsBounded(s, t);
  }

  lemma ExecuteReaches(s: Broker, l: nat, call: CommandCall, now: int)
    requires Inv(s, now) && l < |s.leases| && LeaseActive(s.leases[l], now)
    ensures Reaches(s, ExecuteWithLease(s, l, call, now).0, now)
  {
    hide Records, Ledger, LeaseWindows, RequestWindows, Bounded, Moves, AuthorizeCommand, AdmitCommand, RevokeLease;
    RevokeReaches(s, l, "BROWSER_DISCONNECTED", now);
    AdmitReaches(s, l, KindOf(call), now);
    StaysPut(s, now);
  }

  lemma StaysPut(s: Broker, now: int)
    requires Inv(s, now)
    ensures Reaches(s, s, now)
  {
  }

  lemma BeginReaches(s: Broker, ctx: nat, l: nat, call: CommandCall, now: int)
    requires Inv(s, now)
    ensures Reaches(s, BeginCommand(s, ctx, l, call, now).0, now)
  {
    assert IdsInHeap(s);
    hide Inv, Moves, ExecuteWithLease, CheckLease, ScopesGranted, CallValid;
    var refusal := CommandRefusal(s, ctx, l, call, now);
    if refusal == Some(LeaseNotActive) {
      CheckLeaseReaches(s, l, now);
    } else if refusal == None {
      ExecuteReaches(s, l, call, now);
    } else {
      StaysPut(s, now);
    }
  }

  /** Moving a command while its lease keeps everything but its in-flight and egress counters. */
  lemma MoveReaches(s: Broker, c: nat, stage: Stage, lease: Lease, now: int)
    requires Inv(s, now) && c < |s.commands|
    requires var l, command := s.commands[c].lease, s.commands[c];
             var moved := command.(stage := stage);
             && lease == s.leases[l].(inFlight := lease.inFlight, remainingEgress := lease.remainingEgress)
             && lease.inFlight - s.leases[l].inFlight == Weight(moved, l, SuspendedCommands) - Weight(command, l, SuspendedCommands)
             && lease.inFlight <= s.leases[l].inFlight
             && lease.remainingEgress - s.leases[l].remainingEgress == Weight(command, l, EgressBytes) - Weight(moved, l, EgressBytes)
             && lease.remainingEgress >= 0
             && (lease.revokedAt == None && lease.policy.remainingUses == 0 ==> lease.inFlight > 0)
             && ReleasedInTime(lease, moved, now)
    ensures Reaches(s, PutStage(PutLease(s, s.commands[c].lease, lease), c, stage), now)
  {
    var l := s.commands[c].lease;
    var counted := PutLease(s, l, lease);
    var t := PutStage(counted, c, stage);
    MoveKeepsLedger(s, c, stage, lease, now);
    MovedRecords(s, c, stage, lease, now);
    hide Ledger, ReleasedInTime, Weight, Records;
    QuietKeepsLeaseWindows(s, counted, now);
    MoveKeepsLeaseWindows(counted, c, stage, now);
    hide LeaseWindows;
    QuietKeepsRequestWindows(s, t, now);
    ShrinkKeepsBounded(s, t);
  }

  lemma MovedRecords(s: Broker, c: nat, stage: Stage, lease: Lease, now: int)
    requires Records(s, now) && c < |s.commands|
    requires lease == s.leases[s.commands[c].lease].(inFlight := lease.inFlight, remainingEgress := lease.remainingEgress)
    ensures Records(PutStage(PutLease(s, s.commands[c].lease, lease), c, stage), now)
  {
    var l := s.commands[c].lease;
    var counted := PutLease(s, l, lease);
    assert InStep(s.leases[l], s.secret) && LeaseTimes(s.leases[l], now);
    CountKeepsRecords(s, l, lease, now);
    AroundKeepsRecords(counted, PutStage(counted, c, stage), now);
  }
}
