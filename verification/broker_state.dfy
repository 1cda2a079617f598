/** The `BrokerState` class: one method per segment of its handlers, proved against the state machine. */
module BrokerStateModel {
  import opened Wrappers
  import opened Policy
  import opened Spec = Broker
  import Properties = BrokerProperties
  import Sessions = BrokerSessions

  /**
   * The fields of the class. `requests`, `leases` and `commands` are the records themselves, which a
   * suspended handler may still reach; `requestIds` and `leaseIds` are what the two maps still contain.
   */
  class BrokerState {
    var requests: seq<AccessRequest>
    var requestIds: seq<nat>
    var leases: seq<Lease>
    var leaseIds: seq<nat>
    var commands: seq<Command>
    var contexts: seq<Context>
    var browsers: map<string, nat>
    var globalWindow: Window
    var nextMaintenanceAt: int
    const secret: nat

    constructor (secret: nat)
      ensures View() == Start(secret)
    {
      this.secret := secret;
      requests, requestIds, leases, leaseIds, commands, contexts := [], [], [], [], [], [];
      browsers, globalWindow, nextMaintenanceAt := map[], Window(0, 0), 0;
    }

    function View(): Broker
      reads this
    {
      Broker(requests, requestIds, leases, leaseIds, commands, contexts, browsers, globalWindow, nextMaintenanceAt, secret)
    }

    predicate Valid()
      reads this
    {
      IdsInHeap(View())
    }

    method CreateContext(role: Role, clientId: string, taskId: string) returns (ctx: nat)
      modifies this`contexts
      ensures View() == old(View()).(contexts := old(contexts) + [Context(role, clientId, taskId, None, None)])
      ensures ctx == |old(contexts)|
    {
      ctx := |contexts|;
      contexts := contexts + [Context(role, clientId, taskId, None, None)];
    }

    // ---------------------------------------------------------- expiry

    method RevokeLease(l: nat, reason: string, now: int)
      requires l < |leases|
      modifies this`leases, this`requests
      ensures View() == Spec.RevokeLease(old(View()), l, reason, now)
    {
      if leases[l].revokedAt.Some? {
        return;
      }
      var lease := leases[l].(revokedAt := Some(now), revokeReason := Some(reason));
      if reason == "LEASE_EXPIRED" {
        lease := lease.(policy := lease.policy.(state := Expired));
      } else {
        lease := lease.(policy := lease.policy.(state := LeaseState.Revoked, revokedAt := Some(now)));
      }
      leases := leases[l := lease];
      var r := lease.requestId;
      if r in requestIds && r < |requests| {
        requests := requests[r := requests[r].(status := RevokedStatus(reason), terminalAt := Some(now))];
      }
    }

    method IsLeaseActive(l: nat, now: int) returns (active: bool)
      requires l < |leases|
      modifies this`leases, this`requests
      ensures View() == CheckLease(old(View()), l, now)
      ensures active == LeaseActive(old(leases)[l], now)
    {
      var lease := leases[l];
      if lease.revokedAt != None {
        return false;
      }
      if lease.expiresAt <= now || lease.lastUsedAt + LEASE_IDLE_TIMEOUT_MS <= now {
        RevokeLease(l, "LEASE_EXPIRED", now);
        return false;
      }
      if lease.policy.remainingUses <= 0 && lease.inFlight == 0 {
        RevokeLease(l, "USE_LIMIT_EXHAUSTED", now);
        return false;
      }
      return true;
    }

    method ExpireRecords(now: int)
      requires Valid()
      modifies this`leases, this`requests
      ensures View() == Spec.ExpireRecords(old(View()), now)
    {
      ghost var start := View();
      var ids := requestIds;
      var i := 0;
      while i < |ids|
        invariant 0 <= i <= |ids| && ids == requestIds
        invariant |requests| == |start.requests| && |leases| == |start.leases|
        invariant ExpireRequests(View(), ids[i..], now) == ExpireRequests(start, ids, now)
      {
        var r := ids[i];
        if requests[r].status == Pending && requests[r].expiresAt <= now {
          requests := requests[r := requests[r].(status := RequestExpired, terminalAt := Some(now))];
        }
        i := i + 1;
      }
      ghost var half := View();
      i := 0;
      while i < |leaseIds|
        invariant 0 <= i <= |leaseIds|
        invariant |requests| == |start.requests| && |leases| == |start.leases|
        invariant ExpireLeases(View(), leaseIds[i..], now) == ExpireLeases(half, leaseIds, now)
      {
        var _ := IsLeaseActive(leaseIds[i], now);
        i := i + 1;
      }
    }

    method MaintainState(now: int)
      requires Valid()
      modifies this`requests, this`leases, this`requestIds, this`leaseIds, this`nextMaintenanceAt
      ensures View() == Maintain(old(View()), now)
    {
      ExpireRecords(now);
      if now < nextMaintenanceAt {
        return;
      }
      ForgetRequests(now - TERMINAL_RECORD_RETENTION_MS);
      ForgetLeases(now - TERMINAL_RECORD_RETENTION_MS);
      nextMaintenanceAt := now + STATE_MAINTENANCE_INTERVAL_MS;
    }

    method ForgetRequests(cutoff: int)
      requires Valid()
      modifies this`requestIds
      ensures requestIds == KeepRequests(requests, old(requestIds), cutoff)
    {
      var ids := requestIds;
      hide KeepRequests;
      ghost var whole := KeepRequests(requests, ids, cutoff);
      KeepRequestsFrom(requests, ids, |ids|, cutoff);
      var kept: seq<nat>, i := [], 0;
      while i < |ids|
        invariant 0 <= i <= |ids|
        invariant kept + KeepRequests(requests, ids[i..], cutoff) == whole
      {
        KeepRequestsFrom(requests, ids, i, cutoff);
        if !RequestRetired(requests[ids[i]], cutoff) {
          kept := kept + [ids[i]];
        }
        i := i + 1;
      }
      requestIds := kept;
    }

    method ForgetLeases(cutoff: int)
      requires Valid()
      modifies this`leaseIds
      ensures leaseIds == KeepLeases(leases, old(leaseIds), cutoff)
    {
      var ids := leaseIds;
      hide KeepLeases;
      ghost var whole := KeepLeases(leases, ids, cutoff);
      KeepLeasesFrom(leases, ids, |ids|, cutoff);
      var kept: seq<nat>, i := [], 0;
      while i < |ids|
        invariant 0 <= i <= |ids|
        invariant kept + KeepLeases(leases, ids[i..], cutoff) == whole
      {
        KeepLeasesFrom(leases, ids, i, cutoff);
        if !LeaseRetired(leases[ids[i]], cutoff) {
          kept := kept + [ids[i]];
        }
        i := i + 1;
      }
      leaseIds := kept;
    }

    // -------------------------------------------------------- requests

    method ReserveAccessRequestRate(ctx: nat, now: int) returns (refusal: Option<Code>)
      requires ctx < |contexts|
      modifies this`contexts, this`globalWindow
      ensures (View(), refusal) == ReserveRate(old(View()), ctx, now)
    {
      var window := Window(now, 0);
      if contexts[ctx].window.Some? {
        window := ResetWindowIfNeeded(contexts[ctx].window.value, now);
      }
      contexts := contexts[ctx := contexts[ctx].(window := Some(window))];
      globalWindow := ResetWindowIfNeeded(globalWindow, now);
      if window.count >= ACCESS_REQUESTS_PER_SESSION_WINDOW {
        return Some(AccessRequestRateLimit);
      }
      if globalWindow.count >= ACCESS_REQUESTS_GLOBAL_WINDOW {
        return Some(GlobalAccessRequestRateLimit);
      }
      contexts := contexts[ctx := contexts[ctx].(window := Some(window.(count := window.count + 1)))];
      globalWindow := globalWindow.(count := globalWindow.count + 1);
      assert contexts == old(contexts)[ctx := contexts[ctx]];
      return None;
    }

    method ResetWindowIfNeeded(window: Window, now: int) returns (current: Window)
      ensures current == ResetIfNeeded(window, now)
    {
      current := window;
      if window.startedAt == 0 || now < window.startedAt || now - window.startedAt >= ACCESS_REQUEST_RATE_WINDOW_MS {
        current := Window(now, 0);
      }
    }

    /** The counting loop of `requestAccess`. */
    method CountPending(ctx: nat) returns (sessionPending: nat, globalPending: nat)
      requires Valid()
      ensures sessionPending == SessionPendingCount(requests, requestIds, ctx)
      ensures globalPending == PendingCount(requests, requestIds)
    {
      sessionPending, globalPending := 0, 0;
      var i := 0;
      while i < |requestIds|
        invariant 0 <= i <= |requestIds|
        invariant sessionPending == SessionPendingCount(requests, requestIds[..i], ctx)
        invariant globalPending == PendingCount(requests, requestIds[..i])
      {
        var request := requests[requestIds[i]];
        assert requestIds[..i + 1][..i] == requestIds[..i];
        i := i + 1;
        if request.status != Pending {
          continue;
        }
        globalPending := globalPending + 1;
        if request.session == ctx {
          sessionPending := sessionPending + 1;
        }
      }
      assert requestIds[..i] == requestIds;
    }

    method EnsureAccessRequestCapacity() returns (room: bool)
      requires Valid()
      modifies this`requestIds
      ensures (requestIds, room) == RequestRoom(old(View()))
    {
      if |requestIds| < ACCESS_REQUEST_RECORD_LIMIT {
        return true;
      }
      var terminal := SortBy(NonPending(requests, requestIds), RequestKeys(requests));
      ghost var ids := requestIds;
      var i := 0;
      while i < |terminal|
        invariant 0 <= i <= |terminal|
        invariant Evict(requestIds, terminal[i..], ACCESS_REQUEST_RECORD_LIMIT) == Evict(ids, terminal, ACCESS_REQUEST_RECORD_LIMIT)
      {
        requestIds := Without(requestIds, terminal[i]);
        if |requestIds| < ACCESS_REQUEST_RECORD_LIMIT {
          return true;
        }
        i := i + 1;
      }
      return false;
    }

    method EnsureLeaseCapacity() returns (room: bool)
      requires Valid()
      modifies this`leaseIds
      ensures (leaseIds, room) == LeaseRoom(old(View()))
    {
      if |leaseIds| < LEASE_RECORD_LIMIT {
        return true;
      }
      var terminal := SortBy(RevokedOnly(leases, leaseIds), LeaseKeys(leases));
      ghost var ids := leaseIds;
      var i := 0;
      while i < |terminal|
        invariant 0 <= i <= |terminal|
        invariant Evict(leaseIds, terminal[i..], LEASE_RECORD_LIMIT) == Evict(ids, terminal, LEASE_RECORD_LIMIT)
      {
        leaseIds := Without(leaseIds, terminal[i]);
        if |leaseIds| < LEASE_RECORD_LIMIT {
          return true;
        }
        i := i + 1;
      }
      return false;
    }

    /** `access.request` up to its audit write. */
    method RequestAccess(ctx: nat, params: RequestParams, now: int) returns (reply: Reply<nat>)
      requires Valid() && ctx < |contexts|
      modifies this
      ensures (View(), reply) == Spec.RequestAccess(old(View()), ctx, params, now)
    {
      if !RequestParamsValid(params) {
        return Throw(InvalidParams);
      }
      ExpireRecords(now);
      var refusal := ReserveAccessRequestRate(ctx, now);
      if refusal.Some? {
        return Throw(refusal.value);
      }
      var sessionPending, globalPending := CountPending(ctx);
      if sessionPending >= ACCESS_PENDING_PER_SESSION_LIMIT {
        return Throw(SessionPendingLimit);
      }
      if globalPending >= ACCESS_PENDING_GLOBAL_LIMIT {
        return Throw(GlobalPendingLimit);
      }
      var room := EnsureAccessRequestCapacity();
      if !room {
        return Throw(AccessRecordCapacity);
      }
      var request := AccessRequest(ctx, contexts[ctx].clientId, contexts[ctx].taskId, Dedup(params.scopes), params.provider,
                                   now, now + ACCESS_REQUEST_TTL_MS, Pending, None, None);
      requestIds := requestIds + [|requests|];
      requests := requests + [request];
      return Done(|requests| - 1);
    }

    /** `access.status`: expires first, then shows the records of the session. */
    method AccessStatus(ctx: nat, now: int) returns (shown: Sessions.View)
      requires Valid()
      modifies this`leases, this`requests
      ensures View() == Spec.ExpireRecords(old(View()), now)
      ensures shown == Sessions.AccessStatus(old(View()), ctx, now)
    {
      ExpireRecords(now);
      var own := RequestsOf(ctx);
      var held := LeasesOf(ctx);
      shown := Sessions.View.View(own, held);
    }

    method RequestsOf(ctx: nat) returns (own: seq<(nat, AccessRequest)>)
      requires Valid()
      ensures own == Sessions.OwnRequests(requests, requestIds, ctx)
    {
      own := [];
      var i := 0;
      while i < |requestIds|
        invariant 0 <= i <= |requestIds|
        invariant own + Sessions.OwnRequests(requests, requestIds[i..], ctx) == Sessions.OwnRequests(requests, requestIds, ctx)
      {
        if requests[requestIds[i]].session == ctx {
          own := own + [(requestIds[i], requests[requestIds[i]])];
        }
        i := i + 1;
      }
    }

    method LeasesOf(ctx: nat) returns (own: seq<(nat, Lease)>)
      requires Valid()
      ensures own == Sessions.OwnLeases(leases, leaseIds, ctx)
    {
      own := [];
      var i := 0;
      while i < |leaseIds|
        invariant 0 <= i <= |leaseIds|
        invariant own + Sessions.OwnLeases(leases, leaseIds[i..], ctx) == Sessions.OwnLeases(leases, leaseIds, ctx)
      {
        if leases[leaseIds[i]].session == ctx {
          own := own + [(leaseIds[i], leases[leaseIds[i]])];
        }
        i := i + 1;
      }
    }

    /** `access.pending.list`: expires first, then lists the pending requests up to the global limit. */
    method ListPendingRequests(now: int) returns (pending: seq<nat>)
      requires Valid()
      modifies this`leases, this`requests
      ensures View() == Spec.ExpireRecords(old(View()), now)
      ensures pending == Properties.PendingList(View())
    {
      ExpireRecords(now);
      pending := [];
      var i := 0;
      while i < |requestIds|
        invariant 0 <= i <= |requestIds|
        invariant pending == Properties.PendingIds(requests, requestIds[..i])
      {
        assert requestIds[..i + 1][..i] == requestIds[..i];
        if requests[requestIds[i]].status == Pending {
          pending := pending + [requestIds[i]];
        }
        i := i + 1;
      }
      assert requestIds[..i] == requestIds;
      if |pending| > ACCESS_PENDING_GLOBAL_LIMIT {
        pending := pending[..ACCESS_PENDING_GLOBAL_LIMIT];
      }
    }

    // ------------------------------------------------- grants and ends

    /** `access.grant` up to its audit write. */
    method GrantAccess(ctx: nat, params: GrantParams, now: int) returns (reply: Reply<nat>)
      requires Valid() && ctx < |contexts|
      modifies this`requests, this`leases, this`leaseIds
      ensures (View(), reply) == Spec.GrantAccess(old(View()), ctx, params, now)
    {
      if !GrantParamsValid(params) {
        return Throw(InvalidParams);
      }
      if contexts[ctx].browserInstanceId != Some(params.browserInstanceId) {
        return Throw(BrowserIdMismatch);
      }
      var r := params.requestId;
      if r !in requestIds || requests[r].status != Pending {
        return Throw(AccessRequestNotPending);
      }
      var request := requests[r];
      if request.expiresAt <= now {
        requests := requests[r := request.(status := RequestExpired, terminalAt := Some(now))];
        return Throw(AccessRequestHasExpired);
      }
      if exists x | x in params.scopes :: x !in request.scopes {
        return Throw(ScopeEscalation);
      }
      if params.urlOrigin != params.origin {
        return Throw(OriginMismatch);
      }
      var room := EnsureLeaseCapacity();
      if !room {
        return Throw(LeaseRecordCapacity);
      }
      var capability := IssueCapability(secret, GrantClaims(View(), request, params, now));
      if capability == None {
        return Throw(InvalidClaims);
      }
      var l := |leases|;
      requests := requests[r := request.(status := Granted, terminalAt := Some(now), leaseId := Some(l))];
      leases := leases + [NewLease(request, params, capability.value, now)];
      leaseIds := leaseIds + [l];
      return Done(l);
    }

    method BrowserDeny(r: nat, now: int) returns (reply: Reply<nat>)
      requires Valid()
      modifies this`requests
      ensures (View(), reply) == DenyAccess(old(View()), r, now)
    {
      if r !in requestIds || requests[r].status != Pending {
        return Throw(AccessRequestNotPending);
      }
      requests := requests[r := requests[r].(status := Denied, terminalAt := Some(now))];
      return Done(r);
    }

    method AgentRevoke(ctx: nat, l: nat, now: int) returns (reply: Reply<nat>)
      requires Valid()
      modifies this`leases, this`requests
      ensures (View(), reply) == Spec.AgentRevoke(old(View()), ctx, l, now)
    {
      if l !in leaseIds || leases[l].session != ctx {
        return Throw(LeaseNotFound);
      }
      RevokeLease(l, "AGENT_REVOKED", now);
      return Done(l);
    }

    method BrowserRevoke(ctx: nat, l: nat, reason: string, now: int) returns (reply: Reply<nat>)
      requires Valid() && ctx < |contexts|
      modifies this`leases, this`requests
      ensures (View(), reply) == Spec.BrowserRevoke(old(View()), ctx, l, reason, now)
    {
      if l !in leaseIds || contexts[ctx].browserInstanceId != Some(leases[l].browserInstanceId) {
        return Throw(LeaseNotFound);
      }
      RevokeLease(l, reason, now);
      return Done(l);
    }

    method RegisterBrowser(ctx: nat, instance: string, now: int) returns (pending: seq<nat>)
      requires Valid() && ctx < |contexts|
      modifies this
      ensures View() == Spec.ExpireRecords(Spec.RegisterBrowser(old(View()), ctx, instance), now)
      ensures pending == Properties.PendingList(View())
    {
      contexts := contexts[ctx := contexts[ctx].(browserInstanceId := Some(instance))];
      browsers := browsers[instance := ctx];
      pending := ListPendingRequests(now);
    }

    method Disconnected(ctx: nat, now: int)
      requires Valid() && ctx < |contexts|
      modifies this`requests, this`leases, this`browsers
      ensures View() == Disconnect(old(View()), ctx, now)
    {
      if contexts[ctx].browserInstanceId.Some? {
        var instance := contexts[ctx].browserInstanceId.value;
        browsers := browsers - {instance};
        RevokeLeasesOn(instance, now);
      } else {
        RevokeRequestsOf(ctx, now);
        RevokeLeasesOf(ctx, now);
      }
    }

    method RevokeLeasesOn(instance: string, now: int)
      requires Valid()
      modifies this`requests, this`leases
      ensures View() == RevokeOnBrowser(old(View()), leaseIds, instance, now)
    {
      ghost var start := View();
      var i := 0;
      while i < |leaseIds|
        invariant 0 <= i <= |leaseIds|
        invariant |requests| == |start.requests| && |leases| == |start.leases|
        invariant RevokeOnBrowser(View(), leaseIds[i..], instance, now) == RevokeOnBrowser(start, leaseIds, instance, now)
      {
        if leases[leaseIds[i]].browserInstanceId == instance && leases[leaseIds[i]].revokedAt == None {
          RevokeLease(leaseIds[i], "BROWSER_DISCONNECTED", now);
        }
        i := i + 1;
      }
    }

    method RevokeRequestsOf(ctx: nat, now: int)
      requires Valid()
      modifies this`requests
      ensures View() == RevokePending(old(View()), requestIds, ctx, now)
    {
      ghost var start := View();
      var i := 0;
      while i < |requestIds|
        invariant 0 <= i <= |requestIds|
        invariant |requests| == |start.requests|
        invariant RevokePending(View(), requestIds[i..], ctx, now) == RevokePending(start, requestIds, ctx, now)
      {
        var r := requestIds[i];
        if requests[r].session == ctx && requests[r].status == Pending {
          requests := requests[r := requests[r].(status := RequestRevoked, terminalAt := Some(now))];
        }
        i := i + 1;
      }
    }

    method RevokeLeasesOf(ctx: nat, now: int)
      requires Valid()
      modifies this`requests, this`leases
      ensures View() == RevokeSession(old(View()), leaseIds, ctx, now)
    {
      ghost var start := View();
      var i := 0;
      while i < |leaseIds|
        invariant 0 <= i <= |leaseIds|
        invariant |requests| == |start.requests| && |leases| == |start.leases|
        invariant RevokeSession(View(), leaseIds[i..], ctx, now) == RevokeSession(start, leaseIds, ctx, now)
      {
        if leases[leaseIds[i]].session == ctx && leases[leaseIds[i]].revokedAt == None {
          RevokeLease(leaseIds[i], "AGENT_DISCONNECTED", now);
        }
        i := i + 1;
      }
    }

    // -------------------------------------------------------- commands

    method RequireOwnedLease(ctx: nat, l: nat, now: int) returns (refusal: Option<Code>)
      requires Valid()
      modifies this`leases, this`requests
      ensures refusal == OwnershipRefusal(old(View()), ctx, l, now)
      ensures View() == if refusal == Some(LeaseNotActive) then CheckLease(old(View()), l, now) else old(View())
    {
      if l !in leaseIds || leases[l].session != ctx {
        return Some(LeaseNotFound);
      }
      var active := IsLeaseActive(l, now);
      if !active {
        return Some(LeaseNotActive);
      }
      return None;
    }

    /** `execute` and `navigate` up to the request to the browser. */
    method Execute(ctx: nat, l: nat, call: CommandCall, now: int) returns (reply: Reply<nat>)
      requires Valid()
      modifies this`leases, this`requests, this`commands
      ensures (View(), reply) == BeginCommand(old(View()), ctx, l, call, now)
    {
      if !CallValid(call) {
        return Throw(InvalidParams);
      }
      var refusal := RequireOwnedLease(ctx, l, now);
      if refusal.Some? {
        return Throw(refusal.value);
      }
      if !ScopesGranted(leases[l], call) {
        return Throw(ScopeRequired);
      }
      if call.NavigateTo? && call.destination != leases[l].origin {
        return Throw(OriginChanged);
      }
      reply := ExecuteWithLease(l, call, now);
    }

    method ExecuteWithLease(l: nat, call: CommandCall, now: int) returns (reply: Reply<nat>)
      requires l < |leases|
      modifies this`leases, this`requests, this`commands
      ensures (View(), reply) == Spec.ExecuteWithLease(old(View()), l, call, now)
    {
      if leases[l].browserInstanceId !in browsers {
        RevokeLease(l, "BROWSER_DISCONNECTED", now);
        return Throw(BrowserDisconnected);
      }
      var denial := AuthorizeCommand(View(), leases[l], call, now);
      if denial.Some? {
        return Throw(denial.value);
      }
      var full := ReserveCommand(l, now);
      if full.Some? {
        return Throw(full.value);
      }
      commands := commands + [Command(l, KindOf(call), now, AwaitBrowser)];
      return Done(|commands| - 1);
    }

    method ReserveCommand(l: nat, now: int) returns (refusal: Option<Code>)
      requires l < |leases|
      modifies this`leases
      ensures var (lease, full) := Spec.ReserveCommand(old(leases)[l], now);
              leases == old(leases)[l := lease] && refusal == full
    {
      if leases[l].inFlight >= LEASE_MAX_IN_FLIGHT {
        return Some(LeaseConcurrencyLimit);
      }
      if now - leases[l].windowStartedAt >= LEASE_COMMAND_WINDOW_MS {
        leases := leases[l := leases[l].(windowStartedAt := now, commandsInWindow := 0)];
      }
      if leases[l].commandsInWindow >= LEASE_COMMANDS_PER_WINDOW {
        return Some(LeaseRateLimit);
      }
      if leases[l].policy.remainingUses <= 0 {
        return Some(UseLimitExhausted);
      }
      var lease := leases[l];
      lease := lease.(inFlight := lease.inFlight + 1);
      lease := lease.(commandsInWindow := lease.commandsInWindow + 1);
      lease := lease.(policy := lease.policy.(remainingUses := lease.policy.remainingUses - 1));
      lease := lease.(lastUsedAt := now);
      lease := lease.(policy := lease.policy.(lastUsedAt := now));
      leases := leases[l := lease];
      return None;
    }

    /** After the browser replied, up to the success audit or the denial audit. */
    method AfterReply(c: nat, answer: BrowserAnswer, now: int)
      requires c < |commands| && commands[c].lease < |leases|
      modifies this`leases, this`requests, this`commands
      ensures View() == BrowserReplied(old(View()), c, answer, now)
    {
      var command := commands[c];
      if answer.BrowserError? {
        commands := commands[c := command.(stage := AwaitDenial)];
        return;
      }
      var active := IsLeaseActive(command.lease, now);
      if !active {
        commands := commands[c := command.(stage := AwaitDenial)];
        return;
      }
      var reserved := 0;
      if command.kind == SnapshotKind {
        var refusal := ReserveSnapshotEgress(command.lease, answer.bytes);
        if refusal.Some? {
          commands := commands[c := command.(stage := AwaitDenial)];
          return;
        }
        reserved := answer.bytes.value;
      }
      commands := commands[c := command.(stage := AwaitAudit(reserved, now))];
    }

    method ReserveSnapshotEgress(l: nat, bytes: Option<nat>) returns (refusal: Option<Code>)
      requires l < |leases|
      modifies this`leases
      ensures refusal == EgressRefusal(old(leases)[l], bytes)
      ensures leases == if refusal.Some? then old(leases)
                        else old(leases)[l := old(leases)[l].(remainingEgress := old(leases)[l].remainingEgress - bytes.value)]
    {
      if bytes == None {
        return Some(InvalidBrowserResponse);
      }
      if bytes.value > SNAPSHOT_MAX_RESULT_BYTES {
        return Some(SnapshotTooLarge);
      }
      if bytes.value > leases[l].remainingEgress {
        return Some(EgressBudgetExceeded);
      }
      leases := leases[l := leases[l].(remainingEgress := leases[l].remainingEgress - bytes.value)];
      return None;
    }

    /** After the success audit: the result returns, or the bytes are refunded. */
    method AfterSuccessAudit(c: nat, written: bool, now: int)
      requires c < |commands| && commands[c].lease < |leases| && commands[c].stage.AwaitAudit?
      modifies this`leases, this`requests, this`commands
      ensures View() == SuccessAudited(old(View()), c, written, now)
    {
      var command := commands[c];
      var l, reserved := command.lease, command.stage.reserved;
      if written {
        commands := commands[c := command.(stage := Returned(reserved, command.stage.checkedAt))];
        FinishCommand(l, now);
      } else {
        if reserved > 0 {
          leases := leases[l := leases[l].(remainingEgress := leases[l].remainingEgress + reserved)];
        }
        commands := commands[c := command.(stage := AwaitDenial)];
      }
    }

    /** After the denial audit, whether or not it was written. */
    method AfterDenialAudit(c: nat, now: int)
      requires c < |commands| && commands[c].lease < |leases|
      modifies this`leases, this`requests, this`commands
      ensures View() == DenialAudited(old(View()), c, now)
    {
      var command := commands[c];
      commands := commands[c := command.(stage := Failed)];
      FinishCommand(command.lease, now);
    }

    method FinishCommand(l: nat, now: int)
      requires l < |leases|
      modifies this`leases, this`requests
      ensures View() == Finish(old(View()), l, now)
    {
      leases := leases[l := leases[l].(inFlight := leases[l].inFlight - 1)];
      if leases[l].policy.remainingUses <= 0 && leases[l].inFlight == 0 {
        RevokeLease(l, "USE_LIMIT_EXHAUSTED", now);
      }
    }

    // -------------------------------------------------------- dispatch

    /** `handle`: maintenance first, then the handler of the call. */
    method HandleCall(e: Event, now: int)
      requires Valid() && IsCall(e) && Enabled(View(), e)
      modifies this
      ensures View() == Step(old(View()), e, now)
    {
      MaintainState(now);
      match e {
        case ERequest(ctx, params) => var _ := RequestAccess(ctx, params, now);
        case EStatus(ctx) => var _ := AccessStatus(ctx, now);
        case EAgentRevoke(ctx, l) => var _ := AgentRevoke(ctx, l, now);
        case EExecute(ctx, l, call) => var _ := Execute(ctx, l, call, now);
        case ERegister(ctx, instance) => var _ := RegisterBrowser(ctx, instance, now);
        case EGrant(ctx, params) => var _ := GrantAccess(ctx, params, now);
        case EDeny(_, r) => var _ := BrowserDeny(r, now);
        case EBrowserRevoke(ctx, l, reason) => var _ := BrowserRevoke(ctx, l, reason, now);
        case EOther =>
      }
    }

    /** A handler goes on after an await, or a connection opens or closes. */
    method Continue(e: Event, now: int)
      requires Valid() && !IsCall(e) && Enabled(View(), e)
      modifies this
      ensures View() == Step(old(View()), e, now)
    {
      match e {
        case ECreate(role, clientId, taskId) => var _ := CreateContext(role, clientId, taskId);
        case EGrantReply(l) => var _ := IsLeaseActive(l, now);
        case EBrowserReply(c, answer) => AfterReply(c, answer, now);
        case ESuccessAudit(c, written) => AfterSuccessAudit(c, written, now);
        case EDenialAudit(c) => AfterDenialAudit(c, now);
        case EDisconnect(ctx) => Disconnected(ctx, now);
      }
    }
  }

  /** One step of the pruning loops: what is kept from the i-th entry on. */
  lemma KeepRequestsFrom(requests: seq<AccessRequest>, ids: seq<nat>, i: nat, cutoff: int)
    requires Within(ids, |requests|) && i <= |ids|
    ensures KeepRequests(requests, ids[i..], cutoff) ==
            if i == |ids| then []
            else (if RequestRetired(requests[ids[i]], cutoff) then [] else [ids[i]]) + KeepRequests(requests, ids[i + 1..], cutoff)
  {
  }

  lemma KeepLeasesFrom(leases: seq<Lease>, ids: seq<nat>, i: nat, cutoff: int)
    requires Within(ids, |leases|) && i <= |ids|
    ensures KeepLeases(leases, ids[i..], cutoff) ==
            if i == |ids| then []
            else (if LeaseRetired(leases[ids[i]], cutoff) then [] else [ids[i]]) + KeepLeases(leases, ids[i + 1..], cutoff)
  {
  }
}
