/** What maintenance, grants and access requests do, spelled out on the records before and after them. */
module BrokerLaws {
  import opened Wrappers
  import opened Policy
  import opened Broker
  import opened BrokerInvariants
  import opened BrokerLedger
  import opened BrokerBounds
  import opened BrokerSteps
  import opened BrokerRuns
  import opened BrokerExpiry
  import opened BrokerSessions
  import opened BrokerWindows

  // ------------------------------------------------------------ maintenance

  /** An enabled event of a run acts on the state that maintenance leaves, if it is a call. */
  lemma StepMeets(x: Execution, i: nat)
    requires Behaves(x) && i < |x.events|
    ensures var s, e, now := x.states[i], x.events[i].event, x.events[i].now;
            && 0 < now && Inv(s, now) && IdsInHeap(s)
            && var m := Met(s, e, now);
               && Inv(m, now) && IdsInHeap(m) && (IsCall(e) ==> Settled(m, now))
               && m.contexts == s.contexts && m.commands == s.commands && m.browsers == s.browsers
               && (Enabled(s, e) ==> Enabled(m, e) && x.states[i + 1] == if IsCall(e) then Handle(m, e, now) else Resume(m, e, now))
  {
    hide Inv, Moves, Handle, Resume, Settled;
    var s, e, now := x.states[i], x.events[i].event, x.events[i].now;
    RunKeepsInv(x, i);
    LaterKeepsInv(s, Clock(x, i), now);
    InvKeepsIds(s, now);
    MaintainReaches(s, now);
    MaintainSettles(s, now);
    assert StepsTo(x, i);
    if IsCall(e) && Enabled(s, e) {
      StaysEnabled(s, e, now);
    }
  }

  /** What maintenance at a later time meets and leaves. */
  lemma Maintained(x: Execution, i: nat, now: int)
    requires Behaves(x) && i < |x.states| && Clock(x, i) <= now
    ensures var s := x.states[i];
            && Inv(s, now) && IdsInHeap(s)
            && (forall l | 0 <= l < |s.leases| :: Maintain(s, now).leases[l] == CheckedLease(s.leases[l], now))
            && (forall r | 0 <= r < |s.requests| :: Maintain(s, now).requests[r] == CheckedRequest(s, r, now))
  {
    hide Inv;
    RunKeepsInv(x, i);
    LaterKeepsInv(x.states[i], Clock(x, i), now);
    InvKeepsIds(x.states[i], now);
    MaintainSettles(x.states[i], now);
  }

  /**
   * Maintenance ends an unrevoked lease exactly when its lifetime or two minutes without use are over. A
   * lease without uses that nothing holds on to never survives to meet it.
   */
  lemma LeasesExpireExactly(x: Execution, i: nat, now: int, l: nat)
    requires Behaves(x) && i < |x.states| && Clock(x, i) <= now && l < |x.states[i].leases|
    ensures IdsInHeap(x.states[i])
    ensures var before, after := x.states[i].leases[l], Maintain(x.states[i], now).leases[l];
            if before.revokedAt == None && (before.expiresAt <= now || before.lastUsedAt + 120_000 <= now)
            then after == before.(revokedAt := Some(now), revokeReason := Some("LEASE_EXPIRED"), policy := before.policy.(state := Expired))
            else after == before
  {
    hide Inv, Maintain, Behaves;
    Maintained(x, i, now);
    UsedUpIsHeld(x.states[i], now, l);
  }

  lemma UsedUpIsHeld(s: Broker, now: int, l: nat)
    requires Inv(s, now) && l < |s.leases|
    ensures s.leases[l].revokedAt == None && s.leases[l].policy.remainingUses <= 0 ==> s.leases[l].inFlight > 0
    ensures 0 <= s.leases[l].policy.remainingUses <= LEASE_USE_LIMIT && s.leases[l].inFlight <= LEASE_MAX_IN_FLIGHT
  {
    assert Balanced(s, l);
  }

  /** Maintenance ends a pending request after five minutes, a granted one together with its lease, and no other. */
  lemma RequestsExpireExactly(x: Execution, i: nat, now: int, r: nat)
    requires Behaves(x) && i < |x.states| && Clock(x, i) <= now && r < |x.states[i].requests|
    ensures IdsInHeap(x.states[i])
    ensures var s := x.states[i];
            var before, after := s.requests[r], Maintain(s, now).requests[r];
            var over := match before.status
                        case Pending => before.createdAt + 300_000 <= now
                        case Granted =>
                          && r in s.requestIds && before.leaseId.Some? && before.leaseId.value < |s.leases|
                          && var lease := s.leases[before.leaseId.value];
                             lease.expiresAt <= now || lease.lastUsedAt + 120_000 <= now
                        case _ => false;
            after == if over then before.(status := RequestExpired, terminalAt := Some(now)) else before
  {
    hide Inv, Maintain, Behaves;
    Maintained(x, i, now);
    RequestLive(x.states[i], now, r);
  }

  /** What the invariant says of one request and its lease. */
  lemma RequestLive(s: Broker, now: int, r: nat)
    requires Inv(s, now) && r < |s.requests|
    ensures var request := s.requests[r];
            && request.expiresAt == request.createdAt + 300_000
            && (request.status == Pending ==> r in s.requestIds)
            && (request.status != Pending ==> request.terminalAt.Some?)
            && (request.leaseId.Some? ==>
                  && request.leaseId.value < |s.leases|
                  && var lease := s.leases[request.leaseId.value];
                     && (lease.revokedAt == None ==> request.status == Granted)
                     && (lease.revokedAt == None && lease.policy.remainingUses <= 0 ==> lease.inFlight > 0))
            && (request.status == Granted ==>
                  request.leaseId.Some? && (r in s.requestIds ==> s.leases[request.leaseId.value].revokedAt == None))
  {
    assert RequestCoupled(s, r);
    if s.requests[r].leaseId.Some? {
      assert LeaseCoupled(s, s.requests[r].leaseId.value) && Balanced(s, s.requests[r].leaseId.value);
    }
  }

  /** Every thirty seconds maintenance forgets exactly what ended at least fifteen minutes ago. */
  lemma ForgottenExactly(x: Execution, i: nat, now: int)
    requires Behaves(x) && i < |x.states| && Clock(x, i) <= now
    ensures IdsInHeap(x.states[i])
    ensures var s, m := x.states[i], Maintain(x.states[i], now);
            var due := s.nextMaintenanceAt <= now;
            && m.nextMaintenanceAt == (if due then now + 30_000 else s.nextMaintenanceAt)
            && (forall r | r in s.requestIds ::
                  r !in m.requestIds <==>
                    due && s.requests[r].status in {Denied, RequestExpired, RequestRevoked}
                    && s.requests[r].terminalAt.Some? && s.requests[r].terminalAt.value + 900_000 <= now)
            && (forall l | l in s.leaseIds ::
                  l !in m.leaseIds <==> due && s.leases[l].revokedAt.Some? && s.leases[l].revokedAt.value + 900_000 <= now)
  {
    hide Inv, Behaves;
    Maintained(x, i, now);
    var s := x.states[i];
    forall r | r in s.requestIds
      ensures r !in Maintain(s, now).requestIds <==>
                s.nextMaintenanceAt <= now && s.requests[r].status in {Denied, RequestExpired, RequestRevoked}
                && s.requests[r].terminalAt.Some? && s.requests[r].terminalAt.value + 900_000 <= now
    {
      ForgottenRequest(s, now, r);
    }
  }

  lemma ForgottenRequest(s: Broker, now: int, r: nat)
    requires Inv(s, now) && IdsInHeap(s) && r in s.requestIds
    requires Maintain(s, now).requests[r] == CheckedRequest(s, r, now)
    ensures r !in Maintain(s, now).requestIds <==>
              s.nextMaintenanceAt <= now && s.requests[r].status in {Denied, RequestExpired, RequestRevoked}
              && s.requests[r].terminalAt.Some? && s.requests[r].terminalAt.value + 900_000 <= now
  {
    assert RequestCoupled(s, r);
    if s.requests[r].leaseId.Some? {
      assert LeaseCoupled(s, s.requests[r].leaseId.value);
    }
    if RequestRetired(CheckedRequest(s, r, now), now - TERMINAL_RECORD_RETENTION_MS) {
      RetiredBefore(s, r, now);
    }
  }

  // ----------------------------------------------------------------- grants

  /** The names a capability carries. */
  predicate NamesFit(request: AccessRequest, params: GrantParams) {
    && Identifier(request.clientId) && Identifier(request.taskId)
    && Identifier(params.browserInstanceId) && Identifier(params.documentId)
    && (request.provider.Some? ==> Identifier(request.provider.value))
    && (DataEgressModel in params.scopes ==> request.provider.Some?)
  }

  lemma {:induction false} DedupShorter(scopes: seq<Scope>)
    ensures |Dedup(scopes)| <= |scopes| && (scopes != [] ==> Dedup(scopes) != [])
  {
    if scopes != [] {
      DedupShorter(scopes[..|scopes| - 1]);
    }
  }

  /** For valid parameters the claims satisfy the schema exactly when the names do. */
  lemma ClaimsFit(s: Broker, request: AccessRequest, params: GrantParams, now: int)
    requires GrantParamsValid(params) && 0 < now
    ensures ClaimsWellFormed(GrantClaims(s, request, params, now)) <==> NamesFit(request, params)
  {
    hide Identifier;
    KnownNames();
    DedupShorter(params.scopes);
    var distinct := Dedup(params.scopes);
    var claims := GrantClaims(s, request, params, now);
    if DataEgressModel in params.scopes {
      var k :| 0 <= k < |distinct| && distinct[k] == DataEgressModel;
      assert claims.scopes[k] == ModelEgress(if request.provider.Some? then request.provider.value else "", 1_000_000);
      if request.provider == None {
        assert !ScopeWellFormed(claims.scopes[k]);
      }
    }
    if request.provider.Some? {
      assert claims.egressDestinations[0] == request.provider.value;
    }
    forall a, b | 0 <= a < b < |claims.scopes| ensures claims.scopes[a] != claims.scopes[b] {
      assert distinct[a] != distinct[b];
    }
    if NamesFit(request, params) {
      forall k | 0 <= k < |claims.scopes| ensures ScopeWellFormed(claims.scopes[k]) {
        assert distinct[k] in params.scopes;
      }
    }
  }

  lemma KnownNames()
    ensures !Identifier("") && Identifier(POLICY_VERSION)
  {
  }

  /** A capability verifies exactly when the issuer issues it for its claims. */
  lemma VerifiesExactlyIssued(secret: nat, capability: Capability)
    ensures VerifyCapability(secret, capability) <==> IssueCapability(secret, capability.claims) == Some(capability)
    ensures VerifyCapability(secret, capability) ==>
              capability.signature == Mac(secret, capability.claims) && ClaimsWellFormed(capability.claims)
  {
    hide ClaimsWellFormed;
  }

  /** What the browser, the request and the tab must be for a grant. */
  ghost predicate AsksRightly(m: Broker, ctx: nat, params: GrantParams)
    requires IdsInHeap(m) && ctx < |m.contexts|
  {
    && m.contexts[ctx].role == BrowserRole && m.contexts[ctx].browserInstanceId == Some(params.browserInstanceId)
    && params.requestId in m.requestIds && m.requests[params.requestId].status == Pending
    && (forall x | x in params.scopes :: x in m.requests[params.requestId].scopes)
    && params.urlOrigin == params.origin
    && 1 <= |params.scopes| <= 7 && 1 <= |params.documentId| <= 128
    && (params.ttlSeconds.Some? ==> 30 <= params.ttlSeconds.value <= 600)
  }

  /** A rightly asked grant also needs names that fit its claims, and room for a lease. */
  ghost predicate MayGrant(m: Broker, ctx: nat, params: GrantParams)
    requires IdsInHeap(m) && ctx < |m.contexts|
  {
    && AsksRightly(m, ctx, params)
    && NamesFit(m.requests[params.requestId], params)
    && (|m.leaseIds| < 200 || exists l :: l in m.leaseIds && m.leases[l].revokedAt.Some?)
  }

  /** A lease as the grant of this request with these parameters starts it. */
  ghost predicate StartsAs(lease: Lease, request: AccessRequest, params: GrantParams, now: int) {
    && lease.requestId == params.requestId && lease.session == request.session
    && lease.clientId == request.clientId && lease.taskId == request.taskId
    && lease.browserInstanceId == params.browserInstanceId && lease.tabId == params.tabId
    && lease.documentId == params.documentId && lease.origin == params.origin
    && (forall x :: x in lease.scopes <==> x in params.scopes)
    && lease.issuedAt == now && lease.lastUsedAt == now
    && lease.expiresAt == now + 1000 * (if params.ttlSeconds.Some? then params.ttlSeconds.value else 600)
    && lease.policy.remainingUses == 250 && lease.inFlight == 0
    && lease.windowStartedAt == now && lease.commandsInWindow == 0
    && lease.remainingEgress == (if DataEgressModel in params.scopes then 1_000_000 else 0)
    && lease.revokedAt == None && lease.revokeReason == None
  }

  lemma GrantStarts(s: Broker, request: AccessRequest, params: GrantParams, now: int)
    requires GrantParamsValid(params)
    ensures var claims := GrantClaims(s, request, params, now);
            StartsAs(NewLease(request, params, Capability(claims, Mac(s.secret, claims)), now), request, params, now)
  {
  }

  lemma GrantRefusalExactly(m: Broker, ctx: nat, params: GrantParams, now: int)
    requires IdsInHeap(m) && ctx < |m.contexts| && m.contexts[ctx].role == BrowserRole
    requires forall r | r in m.requestIds && m.requests[r].status == Pending :: now < m.requests[r].expiresAt
    ensures GrantRefusal(m, ctx, params, now) != Some(AccessRequestHasExpired)
    ensures AsksRightly(m, ctx, params) <==> GrantRefusal(m, ctx, params, now) == None
    ensures MayGrant(m, ctx, params) <==>
              && GrantRefusal(m, ctx, params, now) == None
              && NamesFit(m.requests[params.requestId], params)
              && (|m.leaseIds| < LEASE_RECORD_LIMIT || exists l :: l in m.leaseIds && m.leases[l].revokedAt.Some?)
  {
    hide NamesFit, IdsInHeap;
  }

  /**
   * A grant succeeds exactly when it comes from the registered instance, for a pending recorded request, of
   * requested scopes only, for a tab on the granted origin, with valid parameters and names, and there is
   * room. Then the lease starts as asked and the request is granted; otherwise neither kind of record changes.
   */
  lemma GrantExactly(x: Execution, i: nat, ctx: nat, params: GrantParams)
    requires Behaves(x) && i < |x.events| && x.events[i].event == EGrant(ctx, params)
    requires ctx < |x.states[i].contexts|
    ensures IdsInHeap(x.states[i])
    ensures var m, t, now := Maintain(x.states[i], x.events[i].now), x.states[i + 1], x.events[i].now;
            var l := |m.leases|;
            if x.states[i].contexts[ctx].role != BrowserRole then t == x.states[i]
            else if MayGrant(m, ctx, params) then
              && |t.leases| == l + 1 && t.leases[..l] == m.leases && l in t.leaseIds
              && StartsAs(t.leases[l], m.requests[params.requestId], params, now)
              && t.requests == m.requests[params.requestId :=
                   m.requests[params.requestId].(status := Granted, terminalAt := Some(now), leaseId := Some(l))]
              && t.requestIds == m.requestIds
            else t.leases == m.leases && t.requests == m.requests && t.requestIds == m.requestIds
  {
    hide Inv, Handle, Resume, Settled, Maintain, MayGrant, StartsAs, IdsInHeap;
    StepMeets(x, i);
    if x.states[i].contexts[ctx].role == BrowserRole {
      var m, now := Maintain(x.states[i], x.events[i].now), x.events[i].now;
      SettledPending(m, now);
      HandledGrant(m, ctx, params, now);
      GrantOutcome(m, ctx, params, now);
    } else {
      assert StepsTo(x, i);
    }
  }

  lemma HandledGrant(m: Broker, ctx: nat, params: GrantParams, now: int)
    requires IdsInHeap(m) && Enabled(m, EGrant(ctx, params))
    ensures ctx < |m.contexts| && Handle(m, EGrant(ctx, params), now) == GrantAccess(m, ctx, params, now).0
  {
  }

  /** After maintenance no pending request is out of time. */
  lemma SettledPending(m: Broker, now: int)
    requires Settled(m, now) && IdsInHeap(m)
    ensures forall r | r in m.requestIds && m.requests[r].status == Pending :: now < m.requests[r].expiresAt
  {
    forall r | r in m.requestIds && m.requests[r].status == Pending ensures now < m.requests[r].expiresAt {
      assert CheckedRequest(m, r, now) == m.requests[r];
    }
  }

  lemma GrantOutcome(m: Broker, ctx: nat, params: GrantParams, now: int)
    requires Inv(m, now) && IdsInHeap(m) && 0 < now && ctx < |m.contexts| && m.contexts[ctx].role == BrowserRole
    requires forall r | r in m.requestIds && m.requests[r].status == Pending :: now < m.requests[r].expiresAt
    ensures var t, l := GrantAccess(m, ctx, params, now).0, |m.leases|;
            if MayGrant(m, ctx, params) then
              && |t.leases| == l + 1 && t.leases[..l] == m.leases && l in t.leaseIds
              && StartsAs(t.leases[l], m.requests[params.requestId], params, now)
              && t.requests == m.requests[params.requestId :=
                   m.requests[params.requestId].(status := Granted, terminalAt := Some(now), leaseId := Some(l))]
              && t.requestIds == m.requestIds
            else t.leases == m.leases && t.requests == m.requests && t.requestIds == m.requestIds
  {
    LeaseRoomExactly(m);
    GrantRefusalExactly(m, ctx, params, now);
    hide Inv, AsksRightly, MayGrant, StartsAs, GrantClaims, LeaseRoom, NamesFit, ClaimsWellFormed, NewLease, Forgets, FirstRevoked, GrantRefusal;
    if GrantRefusal(m, ctx, params, now) == None {
      var request := m.requests[params.requestId];
      ClaimsFit(m, request, params, now);
      GrantStarts(m, request, params, now);
      if MayGrant(m, ctx, params) {
        GrantAddsLease(m, ctx, params, now);
      }
    }
  }

  lemma GrantAddsLease(m: Broker, ctx: nat, params: GrantParams, now: int)
    requires IdsInHeap(m) && ctx < |m.contexts| && GrantRefusal(m, ctx, params, now) == None && LeaseRoom(m).1
    requires ClaimsWellFormed(GrantClaims(m, m.requests[params.requestId], params, now))
    ensures var t, claims := GrantAccess(m, ctx, params, now).0, GrantClaims(m, m.requests[params.requestId], params, now);
            && t.leases == m.leases + [NewLease(m.requests[params.requestId], params, Capability(claims, Mac(m.secret, claims)), now)]
            && t.leaseIds == LeaseRoom(m).0 + [|m.leases|]
            && |m.leases| in t.leaseIds
            && t.requests == m.requests[params.requestId :=
                 m.requests[params.requestId].(status := Granted, terminalAt := Some(now), leaseId := Some(|m.leases|))]
            && t.requestIds == m.requestIds
  {
    hide GrantClaims, LeaseRoom, ClaimsWellFormed, NewLease, GrantRefusal;
    var kept := LeaseRoom(m).0;
    assert (kept + [|m.leases|])[|kept|] == |m.leases|;
  }

  lemma GrantKeepsOrDrops(m: Broker, ctx: nat, params: GrantParams, now: int, l: nat)
    requires Inv(m, now) && IdsInHeap(m) && 0 < now && ctx < |m.contexts| && m.contexts[ctx].role == BrowserRole && l in m.leaseIds
    requires forall r | r in m.requestIds && m.requests[r].status == Pending :: now < m.requests[r].expiresAt
    ensures l !in GrantAccess(m, ctx, params, now).0.leaseIds <==>
              AsksRightly(m, ctx, params) && |m.leaseIds| == 200 && FirstRevoked(m, l)
  {
    GrantRefusalExactly(m, ctx, params, now);
    LeaseEvictedExactly(m, l);
    hide Inv, AsksRightly, MayGrant, GrantClaims, LeaseRoom, NamesFit, ClaimsWellFormed, NewLease, FirstRevoked, GrantRefusal, IssueCapability;
    assert l < |m.leases|;
  }

  lemma OthersKeepLeaseIds(s: Broker, e: Event, now: int)
    requires IdsInHeap(s) && Enabled(s, e) && !e.EGrant?
    ensures IsCall(e) ==> Handle(s, e, now).leaseIds == s.leaseIds
    ensures !IsCall(e) ==> Resume(s, e, now).leaseIds == s.leaseIds
  {
    hide ExpireRecords, AuthorizeCommand, ReserveCommand, ScopesGranted, CallValid, RequestRoom, PendingRefusal, NewRequest;
  }

  /**
   * When a lease leaves the map. Beyond the old ends that retention forgets at the start of a call, a step drops a
   * recorded lease exactly when it is a rightly asked grant, the map is full, and the dropped lease was revoked first.
   * A grant that then fails because a name does not fit its claims has dropped it as well.
   */
  lemma LeaseDroppedExactly(x: Execution, i: nat, l: nat)
    requires Behaves(x) && i < |x.events|
    ensures var s, t, e, now := x.states[i], x.states[i + 1], x.events[i].event, x.events[i].now;
            && IdsInHeap(s)
            && var m := Met(s, e, now);
               l in m.leaseIds && Enabled(s, e) ==>
                 && IdsInHeap(m)
                 && (l !in t.leaseIds <==>
                       e.EGrant? && e.ctx < |m.contexts| && AsksRightly(m, e.ctx, e.grant) && |m.leaseIds| == 200 && FirstRevoked(m, l))
  {
    hide Inv, Handle, Resume, Settled, Maintain, Enabled, AsksRightly, FirstRevoked, IdsInHeap;
    StepMeets(x, i);
    var s, e, now := x.states[i], x.events[i].event, x.events[i].now;
    var m := Met(s, e, now);
    assert StepsTo(x, i);
    if Enabled(s, e) && l in m.leaseIds {
      if e.EGrant? {
        EnabledGrant(m, e.ctx, e.grant);
        SettledPending(m, now);
        HandledGrant(m, e.ctx, e.grant, now);
        GrantKeepsOrDrops(m, e.ctx, e.grant, now, l);
      } else {
        OthersKeepLeaseIds(m, e, now);
      }
    }
  }

  /** New leases come from granting events only. */
  lemma NewLeaseGranted(x: Execution, i: nat)
    requires Behaves(x) && i < |x.events|
    ensures |x.states[i].leases| <= |x.states[i + 1].leases|
    ensures |x.states[i].leases| < |x.states[i + 1].leases| ==> x.events[i].event.EGrant? && Enabled(x.states[i], x.events[i].event)
  {
    hide Inv, Handle, Resume, Settled, Maintain, Enabled;
    StepMeets(x, i);
    var s, e, now := x.states[i], x.events[i].event, x.events[i].now;
    var m := Met(s, e, now);
    assert |m.leases| == |s.leases|;
    assert StepsTo(x, i);
    RunMoves(x, i, i + 1);
    if Enabled(s, e) {
      if IsCall(e) {
        HandleAdds(m, e, now);
        if |s.leases| < |x.states[i + 1].leases| {
          assert x.states[i + 1].leases[|m.leases|] in x.states[i + 1].leases;
        }
      } else {
        InvStructured(m, now);
        ResumeAdds(m, e, now);
      }
    }
  }

  lemma InvStructured(s: Broker, now: int)
    requires Inv(s, now)
    ensures Structured(s)
  {
  }

  /** The grant that a lease of a run comes from. */
  lemma {:induction false} LeaseBegins(x: Execution, i: nat, l: nat) returns (j: nat)
    requires Behaves(x) && i < |x.states| && l < |x.states[i].leases|
    ensures j < i && |x.states[j].leases| == l < |x.states[j + 1].leases|
    ensures x.events[j].event.EGrant? && Enabled(x.states[j], x.events[j].event)
    decreases i
  {
    assert i > 0;
    NewLeaseGranted(x, i - 1);
    if l < |x.states[i - 1].leases| {
      j := LeaseBegins(x, i - 1, l);
    } else {
      j := i - 1;
      var e, now := x.events[j].event, x.events[j].now;
      GrantExactly(x, j, e.ctx, e.grant);
    }
  }

  /**
   * Where a lease comes from. In every reachable state each lease was created by one grant of a browser
   * connection registered as the lease's instance, for a tab on the lease's origin, before its request ran
   * out and for the lifetime asked for; its scopes are among those requested, and client and task are the
   * request's.
   */
  lemma LeaseFromGrant(x: Execution, i: nat, l: nat) returns (j: nat)
    requires Behaves(x) && i < |x.states| && l < |x.states[i].leases|
    ensures j < i && x.events[j].event.EGrant?
    ensures var s, lease := x.states[i], x.states[i].leases[l];
            var ctx, params, at := x.events[j].event.ctx, x.events[j].event.grant, x.events[j].now;
            && ctx < |x.states[j].contexts| && lease.requestId < |s.requests|
            && var context, request := x.states[j].contexts[ctx], s.requests[lease.requestId];
               && context.role == BrowserRole && context.browserInstanceId == Some(lease.browserInstanceId)
               && params.requestId == lease.requestId && params.urlOrigin == lease.origin == params.origin
               && params.tabId == lease.tabId && params.documentId == lease.documentId
               && (forall x :: x in lease.scopes <==> x in params.scopes)
               && (forall x | x in lease.scopes :: x in request.scopes)
               && lease.session == request.session && lease.clientId == request.clientId && lease.taskId == request.taskId
               && request.createdAt <= at < request.createdAt + 300_000
               && lease.issuedAt == at
               && lease.expiresAt == at + 1000 * (if params.ttlSeconds.Some? then params.ttlSeconds.value else 600)
  {
    hide Inv, Step, IdsInHeap, Maintain, Enabled;
    j := LeaseBegins(x, i, l);
    LeaseAtGrant(x, j, l);
    LeaseStays(x, j + 1, i, l);
    RequestStays(x, j, i, x.events[j].event.grant.requestId);
  }

  /** The new lease as the grant leaves it. */
  lemma LeaseAtGrant(x: Execution, j: nat, l: nat)
    requires Behaves(x) && j < |x.events| && |x.states[j].leases| == l < |x.states[j + 1].leases|
    requires x.events[j].event.EGrant? && Enabled(x.states[j], x.events[j].event)
    ensures IdsInHeap(x.states[j])
    ensures var ctx, params, at := x.events[j].event.ctx, x.events[j].event.grant, x.events[j].now;
            var m, lease := Maintain(x.states[j], at), x.states[j + 1].leases[l];
            && ctx < |x.states[j].contexts| && lease.requestId == params.requestId < |m.requests| == |x.states[j].requests|
            && var context, request := x.states[j].contexts[ctx], m.requests[params.requestId];
               && context.role == BrowserRole && context.browserInstanceId == Some(lease.browserInstanceId)
               && params.urlOrigin == lease.origin == params.origin
               && params.tabId == lease.tabId && params.documentId == lease.documentId
               && (forall x :: x in lease.scopes <==> x in params.scopes)
               && (forall x | x in lease.scopes :: x in request.scopes)
               && lease.session == request.session && lease.clientId == request.clientId && lease.taskId == request.taskId
               && request.createdAt <= at < request.createdAt + 300_000
               && lease.issuedAt == at
               && lease.expiresAt == at + 1000 * (if params.ttlSeconds.Some? then params.ttlSeconds.value else 600)
  {
    hide Inv, Step, IdsInHeap, Maintain, MayGrant, StartsAs, Enabled, Settled, RequestMoves, LeaseMoves;
    var ctx, params, now := x.events[j].event.ctx, x.events[j].event.grant, x.events[j].now;
    EnabledGrant(x.states[j], ctx, params);
    GrantExactly(x, j, ctx, params);
    var m := Maintain(x.states[j], now);
    StepMeets(x, j);
    MaintainSizes(x.states[j], now);
    GrantMeans(m, ctx, params, now);
    StartMeans(x.states[j + 1].leases[l], m.requests[params.requestId], params, now);
  }

  lemma MaintainSizes(s: Broker, now: int)
    requires IdsInHeap(s)
    ensures |Maintain(s, now).requests| == |s.requests| && |Maintain(s, now).leases| == |s.leases|
  {
  }

  lemma EnabledGrant(s: Broker, ctx: nat, params: GrantParams)
    requires Enabled(s, EGrant(ctx, params))
    ensures ctx < |s.contexts| && s.contexts[ctx].role == BrowserRole
  {
  }

  lemma GrantMeans(m: Broker, ctx: nat, params: GrantParams, now: int)
    requires Inv(m, now) && Settled(m, now) && IdsInHeap(m) && ctx < |m.contexts| && MayGrant(m, ctx, params)
    ensures params.requestId < |m.requests| && m.contexts[ctx].browserInstanceId == Some(params.browserInstanceId)
    ensures params.urlOrigin == params.origin && m.contexts[ctx].role == BrowserRole
    ensures var request := m.requests[params.requestId];
            && (forall x | x in params.scopes :: x in request.scopes)
            && request.createdAt <= now < request.createdAt + 300_000
  {
    SettledPending(m, now);
    RequestLive(m, now, params.requestId);
  }

  lemma StartMeans(lease: Lease, request: AccessRequest, params: GrantParams, now: int)
    requires StartsAs(lease, request, params, now)
    ensures lease.requestId == params.requestId && lease.session == request.session
    ensures lease.clientId == request.clientId && lease.taskId == request.taskId
    ensures lease.browserInstanceId == params.browserInstanceId && lease.tabId == params.tabId
    ensures lease.documentId == params.documentId && lease.origin == params.origin
    ensures forall x :: x in lease.scopes <==> x in params.scopes
    ensures lease.issuedAt == now
    ensures lease.expiresAt == now + 1000 * (if params.ttlSeconds.Some? then params.ttlSeconds.value else 600)
  {
  }

  /** The fields that describe a lease never change along a run. */
  lemma LeaseStays(x: Execution, j: nat, i: nat, l: nat)
    requires Behaves(x) && j <= i < |x.states| && l < |x.states[j].leases|
    ensures l < |x.states[i].leases|
    ensures var before, after := x.states[j].leases[l], x.states[i].leases[l];
            && after.requestId == before.requestId && after.session == before.session
            && after.clientId == before.clientId && after.taskId == before.taskId
            && after.browserInstanceId == before.browserInstanceId && after.tabId == before.tabId
            && after.documentId == before.documentId && after.origin == before.origin
            && after.scopes == before.scopes && after.issuedAt == before.issuedAt && after.expiresAt == before.expiresAt
  {
    hide Step;
    RunMoves(x, j, i);
    RunKeepsInv(x, j);
    RunKeepsInv(x, i);
    assert LeaseMoves(x.states[j].leases[l], x.states[i].leases[l]);
    LeaseNames(x.states[j], Clock(x, j), l);
    LeaseNames(x.states[i], Clock(x, i), l);
  }

  lemma LeaseNames(s: Broker, clock: int, l: nat)
    requires Inv(s, clock) && l < |s.leases|
    ensures var lease := s.leases[l];
            lease.clientId == lease.capability.claims.clientId && lease.taskId == lease.capability.claims.taskId
  {
  }

  /** Nor do those that describe a request, through maintenance or anything else. */
  lemma RequestStays(x: Execution, j: nat, i: nat, r: nat)
    requires Behaves(x) && j < |x.events| && j <= i < |x.states| && r < |x.states[j].requests|
    ensures IdsInHeap(x.states[j]) && r < |x.states[i].requests|
    ensures var before, after := Maintain(x.states[j], x.events[j].now).requests[r], x.states[i].requests[r];
            && after.session == before.session && after.clientId == before.clientId && after.taskId == before.taskId
            && after.scopes == before.scopes && after.createdAt == before.createdAt
  {
    hide Step, Inv, Maintain;
    RunMoves(x, j, i);
    assert RequestMoves(x.states[j].requests[r], x.states[i].requests[r]);
    assert Clock(x, j) <= x.events[j].now;
    Maintained(x, j, x.events[j].now);
    assert Maintain(x.states[j], x.events[j].now).requests[r] == CheckedRequest(x.states[j], r, x.events[j].now);
  }

  // --------------------------------------------------------------- requests

  /** Whether a window is open at this time, and how much of it is used. */
  function UsedAt(window: Option<Window>, now: int): nat {
    if window.Some? && 0 < window.value.startedAt && now < window.value.startedAt + 60_000 then window.value.count else 0
  }

  /** After a request, a window that is over starts now, and is charged for the request if both have room. */
  ghost predicate Charged(before: Option<Window>, after: Option<Window>, now: int, charge: nat) {
    && after.Some? && after.value.count == UsedAt(before, now) + charge
    && after.value.startedAt ==
       if before.Some? && 0 < before.value.startedAt && now < before.value.startedAt + 60_000 then before.value.startedAt else now
  }

  /** Room in both windows. */
  ghost predicate RateAllows(m: Broker, ctx: nat, now: int)
    requires ctx < |m.contexts|
  {
    UsedAt(m.contexts[ctx].window, now) < 20 && UsedAt(Some(m.globalWindow), now) < 120
  }

  ghost predicate MayAsk(m: Broker, ctx: nat, params: RequestParams, now: int)
    requires ctx < |m.contexts|
  {
    && m.contexts[ctx].role == AgentRole
    && 1 <= |params.scopes| <= 7 && (DataEgressModel in params.scopes ==> params.provider.Some?)
    && RateAllows(m, ctx, now)
    && |SessionPendingSet(m.requests, ctx)| < 8 && |PendingSet(m.requests)| < 100
  }

  ghost predicate AsksAs(request: AccessRequest, context: Context, ctx: nat, params: RequestParams, now: int) {
    && request.session == ctx && request.clientId == context.clientId && request.taskId == context.taskId
    && (forall x :: x in request.scopes <==> x in params.scopes) && request.provider == params.provider
    && request.createdAt == now && request.expiresAt == now + 300_000
    && request.status == Pending && request.terminalAt == None && request.leaseId == None
  }

  /**
   * A request is created exactly when it comes from an agent, is valid, fits both rate windows, and fewer
   * than 8 of the session and 100 of all are pending. No other record changes, except that a full map makes
   * room, and the windows are charged exactly when both have room.
   */
  lemma RequestExactly(x: Execution, i: nat, ctx: nat, params: RequestParams)
    requires Behaves(x) && i < |x.events| && x.events[i].event == ERequest(ctx, params)
    requires ctx < |x.states[i].contexts|
    ensures IdsInHeap(x.states[i])
    ensures var m, t, now := Maintain(x.states[i], x.events[i].now), x.states[i + 1], x.events[i].now;
            var r := |m.requests|;
            if x.states[i].contexts[ctx].role != AgentRole then t == x.states[i]
            else
              && t.leases == m.leases && t.leaseIds == m.leaseIds && t.commands == m.commands
              && (if MayAsk(m, ctx, params, now)
                  then |t.requests| == r + 1 && t.requests[..r] == m.requests && r in t.requestIds
                       && AsksAs(t.requests[r], m.contexts[ctx], ctx, params, now)
                  else t.requests == m.requests && t.requestIds == m.requestIds)
              && (1 <= |params.scopes| <= 7 && (DataEgressModel in params.scopes ==> params.provider.Some?) ==>
                    && ctx < |t.contexts|
                    && var charge := if RateAllows(m, ctx, now) then 1 else 0;
                       && Charged(m.contexts[ctx].window, t.contexts[ctx].window, now, charge)
                       && Charged(Some(m.globalWindow), Some(t.globalWindow), now, charge))
  {
    hide Inv, Handle, Resume, Settled, Maintain, MayAsk, AsksAs, Charged, RateAllows, IdsInHeap;
    StepMeets(x, i);
    if x.states[i].contexts[ctx].role == AgentRole {
      var m, now := Maintain(x.states[i], x.events[i].now), x.events[i].now;
      HandledAsk(m, ctx, params, now);
      RequestOutcome(m, ctx, params, now);
    } else {
      assert StepsTo(x, i);
    }
  }

  lemma HandledAsk(m: Broker, ctx: nat, params: RequestParams, now: int)
    requires IdsInHeap(m) && Enabled(m, ERequest(ctx, params))
    ensures ctx < |m.contexts| && Handle(m, ERequest(ctx, params), now) == RequestAccess(m, ctx, params, now).0
  {
  }

  /** What `reserveAccessRequestRate` does to the windows. */
  lemma RateOutcome(m: Broker, ctx: nat, now: int)
    requires Inv(m, now) && 0 < now && ctx < |m.contexts|
    ensures var (t, refusal) := ReserveRate(m, ctx, now);
            && t == m.(contexts := t.contexts, globalWindow := t.globalWindow) && |t.contexts| == |m.contexts|
            && t.contexts[ctx] == m.contexts[ctx].(window := t.contexts[ctx].window)
            && (refusal == None <==> RateAllows(m, ctx, now))
            && (refusal == Some(AccessRequestRateLimit) ==> UsedAt(m.contexts[ctx].window, now) == 20)
            && (refusal == Some(GlobalAccessRequestRateLimit) ==> UsedAt(Some(m.globalWindow), now) == 120)
            && var charge := if RateAllows(m, ctx, now) then 1 else 0;
               && Charged(m.contexts[ctx].window, t.contexts[ctx].window, now, charge)
               && Charged(Some(m.globalWindow), Some(t.globalWindow), now, charge)
  {
    WindowsInOrder(m, ctx, now);
    hide Inv;
  }

  lemma WindowsInOrder(m: Broker, ctx: nat, now: int)
    requires Inv(m, now) && ctx < |m.contexts|
    ensures m.contexts[ctx].window.Some? ==>
              0 < m.contexts[ctx].window.value.startedAt <= now && m.contexts[ctx].window.value.count <= 20
    ensures 0 <= m.globalWindow.startedAt <= now || m.globalWindow.startedAt == 0
    ensures m.globalWindow.count <= 120 && (m.globalWindow.startedAt == 0 ==> m.globalWindow.count == 0)
  {
    assert SessionWindow(m, ctx, now);
  }

  lemma RequestOutcome(m: Broker, ctx: nat, params: RequestParams, now: int)
    requires Inv(m, now) && Settled(m, now) && IdsInHeap(m) && 0 < now && ctx < |m.contexts| && m.contexts[ctx].role == AgentRole
    ensures var t, r := RequestAccess(m, ctx, params, now).0, |m.requests|;
            && t.leases == m.leases && t.leaseIds == m.leaseIds && t.commands == m.commands
            && (if MayAsk(m, ctx, params, now)
                then |t.requests| == r + 1 && t.requests[..r] == m.requests && r in t.requestIds
                     && AsksAs(t.requests[r], m.contexts[ctx], ctx, params, now)
                else t.requests == m.requests && t.requestIds == m.requestIds)
            && (1 <= |params.scopes| <= 7 && (DataEgressModel in params.scopes ==> params.provider.Some?) ==>
                  && ctx < |t.contexts|
                  && var charge := if RateAllows(m, ctx, now) then 1 else 0;
                     && Charged(m.contexts[ctx].window, t.contexts[ctx].window, now, charge)
                     && Charged(Some(m.globalWindow), Some(t.globalWindow), now, charge))
  {
    SettledStays(m, now);
    RateOutcome(m, ctx, now);
    ReserveRateReaches(m, ctx, now);
    var reserved := ReserveRate(m, ctx, now).0;
    RoomAvailable(reserved, now);
    InvPending(reserved, now, ctx);
    hide Inv, Settled, ExpireRecords, ReserveRate, RequestRoom, Charged, RateAllows, Dedup;
    if RequestParamsValid(params) && RateAllows(m, ctx, now) && PendingRefusal(reserved, ctx) == None {
      var kept := RequestRoom(reserved).0;
      assert (kept + [|m.requests|])[|kept|] == |m.requests|;
    }
  }

  lemma InvPending(s: Broker, now: int, ctx: nat)
    requires Inv(s, now) && IdsInHeap(s)
    ensures PendingRefusal(s, ctx) == None <==> |SessionPendingSet(s.requests, ctx)| < 8 && |PendingSet(s.requests)| < 100
    ensures PendingRefusal(s, ctx) == Some(SessionPendingLimit) ==> |SessionPendingSet(s.requests, ctx)| == 8
    ensures PendingRefusal(s, ctx) == Some(GlobalPendingLimit) ==> |PendingSet(s.requests)| == 100
  {
    CountsAreTrue(s, ctx);
  }
}
