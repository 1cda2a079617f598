/** What the broker promises about every run: ledger, agreement of the two layers, coupling, bounds, rates. */
module BrokerProperties {
  import opened Wrappers
  import opened Policy
  import opened Broker
  import opened FixedWindow
  import opened BrokerInvariants
  import opened BrokerLedger
  import opened BrokerWindows
  import opened BrokerBounds
  import opened BrokerSteps
  import opened BrokerRuns

  // ---------------------------------------------------------- lease ledger

  /** Uses, concurrency and egress of every lease add up after every run. */
  lemma LeaseLedger(x: Execution, i: nat, l: nat)
    requires Behaves(x) && i < |x.states| && l < |x.states[i].leases|
    ensures var s := x.states[i];
            var lease := s.leases[l];
            && lease.policy.remainingUses >= 0 && lease.remainingEgress >= 0
            && lease.policy.remainingUses + Tally(s.commands, l, AdmittedCommands) == LEASE_USE_LIMIT
            && lease.inFlight == Tally(s.commands, l, SuspendedCommands) <= LEASE_MAX_IN_FLIGHT
            && lease.remainingEgress + Tally(s.commands, l, EgressBytes) == EgressBudget(lease)
  {
    RunKeepsInv(x, i);
    assert Balanced(x.states[i], l);
  }

  /** A returned result passed its check before the lease expired and before it was revoked. */
  lemma ReturnedWhileActive(x: Execution, i: nat, c: nat)
    requires Behaves(x) && i < |x.states| && c < |x.states[i].commands| && x.states[i].commands[c].stage.Returned?
    ensures var s := x.states[i];
            var command := s.commands[c];
            && command.lease < |s.leases|
            && var lease, at := s.leases[command.lease], command.stage.releasedAt;
               && at < lease.expiresAt && at <= Clock(x, i)
               && (lease.revokedAt.Some? ==> at <= lease.revokedAt.value)
  {
    RunKeepsInv(x, i);
    var s := x.states[i];
    assert ReleasedInTime(s.leases[s.commands[c].lease], s.commands[c], Clock(x, i));
  }

  // ------------------------------------------------ agreement of the layers

  /** For a lease whose grant covers the command, the engine finds the scope unless the navigation leaves the origin. */
  lemma ScopeInCapability(lease: Lease, secret: nat, call: CommandCall)
    requires InStep(lease, secret) && ScopesGranted(lease, call) && !call.HighlightElement?
    ensures RequiredScopePresent(ActionFor(call).value, lease.capability.claims)
            <==> (call.NavigateTo? ==> call.destination == lease.origin)
  {
    assert NeededScopes(call)[0] in NeededScopes(call);
  }

  /** For a recorded lease, the engine's conditions come down to the broker's own. */
  lemma GrantHoldsExactly(s: Broker, lease: Lease, action: Action, clock: int, now: int)
    requires InStep(lease, s.secret) && LeaseTimes(lease, clock) && clock <= now
    requires 0 <= lease.policy.remainingUses <= LEASE_USE_LIMIT
    ensures var q := PolicyQuestion(s, lease, action, now);
            && ClaimsWellFormed(lease.capability.claims) && LeaseWellFormed(lease.policy)
            && (GrantHolds(q.capability.claims, q.lease, q.context) <==> LeaseActive(lease, now) && lease.policy.remainingUses > 0)
  {
    hide Identifier, ScopeWellFormed, DistinctScopes;
  }

  /**
   * The two authorisation layers agree. For a command whose scopes the lease grants, the policy engine
   * allows it exactly when the broker's own check holds, uses remain, and a navigation stays on the
   * leased origin. A highlight has no policy action, so the engine is not asked.
   */
  lemma LayersAgree(x: Execution, i: nat, l: nat, call: CommandCall, now: int)
    requires Behaves(x) && i < |x.states| && l < |x.states[i].leases|
    requires Clock(x, i) <= now && ScopesGranted(x.states[i].leases[l], call)
    ensures var s, lease := x.states[i], x.states[i].leases[l];
            AuthorizeCommand(s, lease, call, now) == None <==>
              || call.HighlightElement?
              || (LeaseActive(lease, now) && lease.policy.remainingUses > 0 && (call.NavigateTo? ==> call.destination == lease.origin))
  {
    var s := x.states[i];
    RunKeepsInv(x, i);
    LeaseLedger(x, i, l);
    var lease := s.leases[l];
    assert InStep(lease, s.secret) && LeaseTimes(lease, Clock(x, i));
    hide Inv, Behaves, Tally;
    if call.HighlightElement? {
      assert NeededScopes(call)[0] in NeededScopes(call);
    } else {
      EngineAgrees(s, lease, call, Clock(x, i), now);
    }
  }

  lemma EngineAgrees(s: Broker, lease: Lease, call: CommandCall, clock: int, now: int)
    requires InStep(lease, s.secret) && LeaseTimes(lease, clock) && clock <= now
    requires 0 <= lease.policy.remainingUses <= LEASE_USE_LIMIT
    requires ScopesGranted(lease, call) && !call.HighlightElement?
    ensures AuthorizeCommand(s, lease, call, now) == None <==>
              LeaseActive(lease, now) && lease.policy.remainingUses > 0 && (call.NavigateTo? ==> call.destination == lease.origin)
  {
    hide InStep, LeaseTimes, LeaseActive, GrantHolds, EvaluatePolicy, ClaimsWellFormed, LeaseWellFormed, ScopesGranted, VerifyCapability, RequiredScopePresent;
    ScopeInCapability(lease, s.secret, call);
    var action := ActionFor(call).value;
    GrantHoldsExactly(s, lease, action, clock, now);
    LowRiskAllowed(PolicyQuestion(s, lease, action, now));
    OnlyAllowed(s, lease, action, now);
  }

  /** A low-risk question in the prepare phase is never answered with a prepared plan. */
  lemma OnlyAllowed(s: Broker, lease: Lease, action: Action, now: int)
    requires RiskOf(action) in {R0, R1}
    ensures !EvaluatePolicy(PolicyQuestion(s, lease, action, now)).AllowPrepare?
  {
  }

  // ------------------------------------------------------ request and lease

  /** Each request yields at most one lease, and every lease is the one its request points at. */
  lemma OneLeasePerRequest(x: Execution, i: nat, l: nat, k: nat)
    requires Behaves(x) && i < |x.states| && l < |x.states[i].leases| && k < |x.states[i].leases|
    requires x.states[i].leases[l].requestId == x.states[i].leases[k].requestId
    ensures l == k
    ensures var s := x.states[i];
            s.leases[l].requestId < |s.requests| && s.requests[s.leases[l].requestId].leaseId == Some(l)
  {
    RunKeepsInv(x, i);
    assert LeaseCoupled(x.states[i], l) && LeaseCoupled(x.states[i], k);
  }

  /** A recorded granted request points at a recorded, unrevoked lease of its own session; and back. */
  lemma GrantedMeansLive(x: Execution, i: nat, r: nat)
    requires Behaves(x) && i < |x.states| && r in x.states[i].requestIds
    ensures var s := x.states[i];
            && r < |s.requests|
            && (s.requests[r].status == Granted <==>
                  exists l :: l in s.leaseIds && l < |s.leases| && s.leases[l].requestId == r && s.leases[l].revokedAt == None)
            && (s.requests[r].status == Granted ==>
                  && s.requests[r].leaseId.Some? && s.requests[r].leaseId.value < |s.leases| && s.requests[r].leaseId.value in s.leaseIds
                  && s.leases[s.requests[r].leaseId.value].session == s.requests[r].session)
  {
    var s := x.states[i];
    RunKeepsInv(x, i);
    assert RequestCoupled(s, r);
    if s.requests[r].status == Granted {
      assert LeaseCoupled(s, s.requests[r].leaseId.value);
    }
    if l :| l in s.leaseIds && l < |s.leases| && s.leases[l].requestId == r && s.leases[l].revokedAt == None {
      assert LeaseCoupled(s, l);
    }
  }

  /** Along a run a request's status only moves forward, and an ended request never changes again. */
  lemma StatusMovesForward(x: Execution, i: nat, j: nat, r: nat)
    requires Behaves(x) && i <= j < |x.states| && r < |x.states[i].requests|
    ensures var before, after := x.states[i], x.states[j];
            && r < |after.requests| && Forward(before.requests[r].status, after.requests[r].status)
            && (before.requests[r].status in {Denied, RequestExpired, RequestRevoked} ==> after.requests[r] == before.requests[r])
  {
    RunMoves(x, i, j);
    assert RequestMoves(x.states[i].requests[r], x.states[j].requests[r]);
  }

  /** A revoked lease stays revoked for the same reason, and uses never come back. */
  lemma LeasesOnlyWindDown(x: Execution, i: nat, j: nat, l: nat)
    requires Behaves(x) && i <= j < |x.states| && l < |x.states[i].leases|
    ensures var before, after := x.states[i], x.states[j];
            && l < |after.leases|
            && after.leases[l].policy.remainingUses <= before.leases[l].policy.remainingUses
            && (before.leases[l].revokedAt.Some? ==>
                  after.leases[l].revokedAt == before.leases[l].revokedAt && after.leases[l].revokeReason == before.leases[l].revokeReason)
  {
    RunMoves(x, i, j);
    assert LeaseMoves(x.states[i].leases[l], x.states[j].leases[l]);
  }

  // ----------------------------------------------------------------- memory

  /** The pending requests among the entries, in map order. */
  function PendingIds(requests: seq<AccessRequest>, ids: seq<nat>): (found: seq<nat>)
    requires Within(ids, |requests|)
    ensures forall r :: r in found <==> r in ids && requests[r].status == Pending
    decreases |ids|
  {
    if ids == [] then []
    else
      var last := |ids| - 1;
      assert ids == ids[..last] + [ids[last]];
      PendingIds(requests, ids[..last]) + if requests[ids[last]].status == Pending then [ids[last]] else []
  }

  /** `listPendingRequests` once expired records are out of the way: the filter, cut at the global limit. */
  function PendingList(s: Broker): seq<nat>
    requires IdsInHeap(s)
  {
    var found := PendingIds(s.requests, s.requestIds);
    if |found| <= ACCESS_PENDING_GLOBAL_LIMIT then found else found[..ACCESS_PENDING_GLOBAL_LIMIT]
  }

  lemma {:induction false} PendingIdsCounted(requests: seq<AccessRequest>, ids: seq<nat>)
    requires Within(ids, |requests|)
    ensures |PendingIds(requests, ids)| == PendingCount(requests, ids)
    decreases |ids|
  {
    if ids != [] {
      PendingIdsCounted(requests, ids[..|ids| - 1]);
    }
  }

  /** Memory stays bounded after every run. */
  lemma MemoryBounded(x: Execution, i: nat, session: nat)
    requires Behaves(x) && i < |x.states|
    ensures var s := x.states[i];
            && |s.requestIds| <= ACCESS_REQUEST_RECORD_LIMIT
            && |s.leaseIds| <= LEASE_RECORD_LIMIT
            && |PendingSet(s.requests)| <= ACCESS_PENDING_GLOBAL_LIMIT
            && |SessionPendingSet(s.requests, session)| <= ACCESS_PENDING_PER_SESSION_LIMIT
  {
    RunKeepsInv(x, i);
  }

  /** The pending list shown to a browser is exactly the set of pending requests: its cut drops nothing. */
  lemma PendingListComplete(x: Execution, i: nat, r: nat)
    requires Behaves(x) && i < |x.states|
    ensures var s := x.states[i];
            IdsInHeap(s) && (r in PendingList(s) <==> r in PendingSet(s.requests))
  {
    var s := x.states[i];
    RunKeepsInv(x, i);
    CountsAreTrue(s, 0);
    PendingIdsCounted(s.requests, s.requestIds);
    if r in PendingSet(s.requests) {
      assert RequestCoupled(s, r);
    }
  }

  /** No request is ever refused for want of a record: that failure is unreachable. */
  lemma RecordCapacityNeverExhausted(x: Execution, i: nat, ctx: nat, params: RequestParams, now: int)
    requires Behaves(x) && i < |x.states| && Clock(x, i) <= now && 0 < now && ctx < |x.states[i].contexts|
    ensures IdsInHeap(x.states[i])
    ensures RequestAccess(Maintain(x.states[i], now), ctx, params, now).1 != Throw(AccessRecordCapacity)
  {
    var s := x.states[i];
    RunKeepsInv(x, i);
    LaterKeepsInv(s, Clock(x, i), now);
    MaintainReaches(s, now);
    NeverExhausted(Maintain(s, now), ctx, params, now);
  }

  lemma NeverExhausted(s: Broker, ctx: nat, params: RequestParams, now: int)
    requires IdsInHeap(s) && Inv(s, now) && 0 < now && ctx < |s.contexts|
    ensures RequestAccess(s, ctx, params, now).1 != Throw(AccessRecordCapacity)
  {
    hide Records, Ledger, LeaseWindows, RequestWindows, Bounded, Moves, ExpireRecords, RequestRoom;
    var expired := ExpireRecords(s, now);
    ExpireReaches(s, now);
    ReserveRateReaches(expired, ctx, now);
    RoomAvailable(ReserveRate(expired, ctx, now).0, now);
  }

  // ------------------------------------------------------------------ rates

  /** At most 60 commands of one lease are admitted in any minute, wherever it starts. */
  lemma CommandRate(x: Execution, i: nat, l: nat, from: int)
    requires Behaves(x) && i < |x.states| && l < |x.states[i].leases|
    ensures CountIn(AdmittedAt(x.states[i].commands, l), from, from + LEASE_COMMAND_WINDOW_MS) <= 2 * LEASE_COMMANDS_PER_WINDOW
  {
    RunKeepsInv(x, i);
    assert LeaseWindow(x.states[i], l, Clock(x, i));
    SpreadBounds(AdmittedAt(x.states[i].commands, l), 2 * LEASE_COMMANDS_PER_WINDOW, LEASE_COMMAND_WINDOW_MS, from);
  }

  lemma WindowRate(log: seq<int>, window: Window, limit: nat, clock: int, from: int)
    requires WindowOk(log, window, limit, clock)
    ensures CountIn(log, from, from + ACCESS_REQUEST_RATE_WINDOW_MS) <= 2 * limit
  {
    if log != [] {
      SpreadBounds(log, 2 * limit, ACCESS_REQUEST_RATE_WINDOW_MS, from);
    }
  }

  /** At most 40 requests of one session, and 240 of all, are created in any minute, wherever it starts. */
  lemma RequestRate(x: Execution, i: nat, session: nat, from: int)
    requires Behaves(x) && i < |x.states| && session < |x.states[i].contexts|
    ensures CountIn(CreatedAt(x.states[i].requests, Some(session)), from, from + ACCESS_REQUEST_RATE_WINDOW_MS)
            <= 2 * ACCESS_REQUESTS_PER_SESSION_WINDOW
    ensures CountIn(CreatedAt(x.states[i].requests, None), from, from + ACCESS_REQUEST_RATE_WINDOW_MS)
            <= 2 * ACCESS_REQUESTS_GLOBAL_WINDOW
  {
    var s := x.states[i];
    RunKeepsInv(x, i);
    hide Records, Ledger, LeaseWindows, Bounded, WindowOk, CreatedAt, CountIn;
    assert SessionWindow(s, session, Clock(x, i));
    WindowRate(CreatedAt(s.requests, None), s.globalWindow, ACCESS_REQUESTS_GLOBAL_WINDOW, Clock(x, i), from);
    if s.contexts[session].window.Some? {
      WindowRate(CreatedAt(s.requests, Some(session)), s.contexts[session].window.value, ACCESS_REQUESTS_PER_SESSION_WINDOW, Clock(x, i), from);
    } else {
      NoneInWindow(from, from + ACCESS_REQUEST_RATE_WINDOW_MS);
    }
  }

  lemma NoneInWindow(from: int, to: int)
    ensures CountIn([], from, to) == 0
  {
  }
}
