/**
 * The lease and request state machine of the broker. Records are JavaScript objects that suspended
 * handlers may still hold after a `Map` entry was deleted, so the state keeps every record ever
 * created in a heap indexed by its fresh identifier, and the `Map`s as insertion-ordered lists of
 * the identifiers they still contain. Each handler is cut into segments at its awaits; one segment
 * reads the clock once.
 */
module Broker {
  import opened Wrappers
  import opened Policy

  const MAX_LEASE_TTL_MS: nat := 600_000
  const DEFAULT_LEASE_TTL_MS: nat := 600_000
  const LEASE_IDLE_TIMEOUT_MS: nat := 120_000
  const ACCESS_REQUEST_TTL_MS: nat := 300_000
  const LEASE_USE_LIMIT: nat := 250
  const LEASE_MAX_IN_FLIGHT: nat := 2
  const LEASE_COMMANDS_PER_WINDOW: nat := 30
  const LEASE_COMMAND_WINDOW_MS: nat := 60_000
  const LEASE_EGRESS_BUDGET_BYTES: nat := 1_000_000
  const SNAPSHOT_MAX_RESULT_BYTES: nat := 256_000
  const ACCESS_PENDING_PER_SESSION_LIMIT: nat := 8
  const ACCESS_PENDING_GLOBAL_LIMIT: nat := 100
  const ACCESS_REQUESTS_PER_SESSION_WINDOW: nat := 20
  const ACCESS_REQUESTS_GLOBAL_WINDOW: nat := 120
  const ACCESS_REQUEST_RATE_WINDOW_MS: nat := 60_000
  const ACCESS_REQUEST_RECORD_LIMIT: nat := 512
  const LEASE_RECORD_LIMIT: nat := 200
  const TERMINAL_RECORD_RETENTION_MS: nat := 900_000
  const STATE_MAINTENANCE_INTERVAL_MS: nat := 30_000
  const POLICY_VERSION: string := "v0.1"

  datatype Role = AgentRole | BrowserRole

  /** A fixed rate window; the source leaves `startedAt` at 0 until the first use. */
  datatype Window = Window(startedAt: int, count: nat)

  /** A connection context. Its index is its session: every context gets a fresh session id. */
  datatype Context = Context(
    role: Role, clientId: string, taskId: string, browserInstanceId: Option<string>, window: Option<Window>)

  datatype Status = Pending | Granted | Denied | RequestExpired | RequestRevoked

  datatype AccessRequest = AccessRequest(
    session: nat, clientId: string, taskId: string, scopes: seq<Scope>, provider: Option<string>,
    createdAt: int, expiresAt: int, status: Status, terminalAt: Option<int>, leaseId: Option<nat>)

  datatype Lease = Lease(
    requestId: nat, session: nat, clientId: string, taskId: string, browserInstanceId: string, tabId: nat,
    documentId: string, origin: string, scopes: seq<Scope>, capability: Capability, policy: PolicyLease,
    issuedAt: int, expiresAt: int, lastUsedAt: int, inFlight: int, windowStartedAt: int, commandsInWindow: nat,
    remainingEgress: int, revokedAt: Option<int>, revokeReason: Option<string>)

  datatype Kind = SnapshotKind | HighlightKind | ScrollKind | NavigateKind

  /** The command an agent sends; a navigation carries the origin of its URL. */
  datatype CommandCall = Snapshot(maxNodes: int) | HighlightElement | ScrollPage(deltaY: int) | NavigateTo(destination: string)

  /**
   * Where an admitted command stands. It waits for the browser, then for one audit write. `checkedAt`
   * is the clock reading at which the lease was found active after the browser replied.
   */
  datatype Stage =
    | AwaitBrowser
    | AwaitAudit(reserved: nat, checkedAt: int)
    | AwaitDenial
    | Returned(bytes: nat, releasedAt: int)
    | Failed

  datatype Command = Command(lease: nat, kind: Kind, admittedAt: int, stage: Stage)

  datatype Broker = Broker(
    requests: seq<AccessRequest>, requestIds: seq<nat>,
    leases: seq<Lease>, leaseIds: seq<nat>,
    commands: seq<Command>,
    contexts: seq<Context>,
    browsers: map<string, nat>,
    globalWindow: Window,
    nextMaintenanceAt: int,
    secret: nat)

  datatype Code =
    | InvalidSession | AccessRequestRateLimit | GlobalAccessRequestRateLimit
    | SessionPendingLimit | GlobalPendingLimit | AccessRecordCapacity | LeaseRecordCapacity
    | BrowserIdMismatch | AccessRequestNotPending | AccessRequestHasExpired | ScopeEscalation | OriginMismatch
    | InvalidClaims | LeaseNotFound | LeaseNotActive | ScopeRequired | OriginChanged | BrowserDisconnected
    | PolicyDenied(policyCode: ErrorCode) | LeaseConcurrencyLimit | LeaseRateLimit | UseLimitExhausted
    | InvalidBrowserResponse | SnapshotTooLarge | EgressBudgetExceeded | UnknownMethod | InvalidParams

  datatype Reply<T> = Done(value: T) | Throw(code: Code)

  function Start(secret: nat): Broker {
    Broker([], [], [], [], [], [], map[], Window(0, 0), 0, secret)
  }

  // ----------------------------------------------------------------- records

  /** Every listed identifier is an index of a heap of this size. */
  predicate Within(ids: seq<nat>, size: nat) {
    forall i | 0 <= i < |ids| :: ids[i] < size
  }

  /** `Map.delete`: later entries keep their order. */
  function Without(ids: seq<nat>, id: nat): seq<nat> {
    if ids == [] then [] else (if ids[0] == id then [] else [ids[0]]) + Without(ids[1..], id)
  }

  function PutRequest(s: Broker, r: nat, request: AccessRequest): Broker
    requires r < |s.requests|
  {
    s.(requests := s.requests[r := request])
  }

  function PutLease(s: Broker, l: nat, lease: Lease): Broker
    requires l < |s.leases|
  {
    s.(leases := s.leases[l := lease])
  }

  function RevokedLease(lease: Lease, reason: string, now: int): Lease {
    var policy := if reason == "LEASE_EXPIRED" then lease.policy.(state := Expired)
                  else lease.policy.(state := LeaseState.Revoked, revokedAt := Some(now));
    lease.(revokedAt := Some(now), revokeReason := Some(reason), policy := policy)
  }

  function EndedRequest(request: AccessRequest, status: Status, now: int): AccessRequest {
    request.(status := status, terminalAt := Some(now))
  }

  function RevokedStatus(reason: string): Status {
    if reason == "LEASE_EXPIRED" then RequestExpired else RequestRevoked
  }

  /** `revokeLease`: ends the lease once, and its request if the request is still recorded. */
  function RevokeLease(s: Broker, l: nat, reason: string, now: int): Broker
    requires l < |s.leases|
  {
    if s.leases[l].revokedAt.Some? then s
    else
      var revoked := PutLease(s, l, RevokedLease(s.leases[l], reason, now));
      var r := s.leases[l].requestId;
      if r in s.requestIds && r < |s.requests|
      then PutRequest(revoked, r, EndedRequest(s.requests[r], RevokedStatus(reason), now))
      else revoked
  }

  /** Why `isLeaseActive` revokes an unrevoked lease at this time, if it does. */
  function ExpiryReason(lease: Lease, now: int): Option<string> {
    if lease.expiresAt <= now || lease.lastUsedAt + LEASE_IDLE_TIMEOUT_MS <= now then Some("LEASE_EXPIRED")
    else if lease.policy.remainingUses <= 0 && lease.inFlight == 0 then Some("USE_LIMIT_EXHAUSTED")
    else None
  }

  predicate LeaseActive(lease: Lease, now: int) {
    lease.revokedAt == None && ExpiryReason(lease, now) == None
  }

  /** `isLeaseActive` as a state change: a lease found expired is revoked on the way. */
  function CheckLease(s: Broker, l: nat, now: int): Broker
    requires l < |s.leases|
  {
    if s.leases[l].revokedAt == None && ExpiryReason(s.leases[l], now).Some?
    then RevokeLease(s, l, ExpiryReason(s.leases[l], now).value, now)
    else s
  }

  function CheckRequest(s: Broker, r: nat, now: int): Broker
    requires r < |s.requests|
  {
    if s.requests[r].status == Pending && s.requests[r].expiresAt <= now
    then PutRequest(s, r, EndedRequest(s.requests[r], RequestExpired, now))
    else s
  }

  function ExpireRequests(s: Broker, ids: seq<nat>, now: int): (after: Broker)
    requires Within(ids, |s.requests|)
    ensures |after.requests| == |s.requests| && |after.leases| == |s.leases|
    ensures after == s.(requests := after.requests)
    decreases |ids|
  {
    if ids == [] then s else ExpireRequests(CheckRequest(s, ids[0], now), ids[1..], now)
  }

  function ExpireLeases(s: Broker, ids: seq<nat>, now: int): (after: Broker)
    requires Within(ids, |s.leases|)
    ensures |after.requests| == |s.requests| && |after.leases| == |s.leases|
    ensures after == s.(requests := after.requests, leases := after.leases)
    decreases |ids|
  {
    if ids == [] then s else ExpireLeases(CheckLease(s, ids[0], now), ids[1..], now)
  }

  predicate IdsInHeap(s: Broker) {
    Within(s.requestIds, |s.requests|) && Within(s.leaseIds, |s.leases|)
  }

  function ExpireRecords(s: Broker, now: int): (after: Broker)
    requires IdsInHeap(s)
    ensures |after.requests| == |s.requests| && |after.leases| == |s.leases|
    ensures after == s.(requests := after.requests, leases := after.leases)
  {
    ExpireLeases(ExpireRequests(s, s.requestIds, now), s.leaseIds, now)
  }

  /** Terminal requests whose retention ended. */
  predicate RequestRetired(request: AccessRequest, cutoff: int) {
    request.status != Pending && request.terminalAt.Some? && request.terminalAt.value <= cutoff
  }

  predicate LeaseRetired(lease: Lease, cutoff: int) {
    lease.revokedAt.Some? && lease.revokedAt.value <= cutoff
  }

  function KeepRequests(requests: seq<AccessRequest>, ids: seq<nat>, cutoff: int): (kept: seq<nat>)
    requires Within(ids, |requests|)
    ensures Within(kept, |requests|) && |kept| <= |ids|
    ensures forall r :: r in kept <==> r in ids && !RequestRetired(requests[r], cutoff)
    decreases |ids|
  {
    if ids == [] then []
    else
      assert forall r :: r in ids <==> r == ids[0] || r in ids[1..];
      (if RequestRetired(requests[ids[0]], cutoff) then [] else [ids[0]]) + KeepRequests(requests, ids[1..], cutoff)
  }

  function KeepLeases(leases: seq<Lease>, ids: seq<nat>, cutoff: int): (kept: seq<nat>)
    requires Within(ids, |leases|)
    ensures Within(kept, |leases|) && |kept| <= |ids|
    ensures forall l :: l in kept <==> l in ids && !LeaseRetired(leases[l], cutoff)
    decreases |ids|
  {
    if ids == [] then []
    else
      assert forall l :: l in ids <==> l == ids[0] || l in ids[1..];
      (if LeaseRetired(leases[ids[0]], cutoff) then [] else [ids[0]]) + KeepLeases(leases, ids[1..], cutoff)
  }

  /** `maintainState`, which every incoming call runs first. */
  function Maintain(s: Broker, now: int): (after: Broker)
    requires IdsInHeap(s)
    ensures |after.requests| == |s.requests| && |after.leases| == |s.leases|
    ensures IdsInHeap(after)
    ensures after.contexts == s.contexts && after.commands == s.commands && after.browsers == s.browsers && after.secret == s.secret
  {
    var expired := ExpireRecords(s, now);
    if now < s.nextMaintenanceAt then expired
    else
      var cutoff := now - TERMINAL_RECORD_RETENTION_MS;
      expired.(
        requestIds := KeepRequests(expired.requests, expired.requestIds, cutoff),
        leaseIds := KeepLeases(expired.leases, expired.leaseIds, cutoff),
        nextMaintenanceAt := now + STATE_MAINTENANCE_INTERVAL_MS)
  }

  // --------------------------------------------------------- capacity limits

  /** The time a terminal request sorts by when records are evicted. */
  function TerminalTime(request: AccessRequest): int {
    if request.terminalAt.Some? then request.terminalAt.value else request.createdAt
  }

  function RevocationTime(lease: Lease): int {
    if lease.revokedAt.Some? then lease.revokedAt.value else 0
  }

  /** Inserts before the first later key, so equal keys keep their order: one step of a stable sort. */
  function InsertBy(ids: seq<nat>, id: nat, keys: seq<int>): seq<nat>
    requires id < |keys| && Within(ids, |keys|)
  {
    if ids == [] || keys[id] < keys[ids[0]] then [id] + ids else [ids[0]] + InsertBy(ids[1..], id, keys)
  }

  function SortBy(ids: seq<nat>, keys: seq<int>): (sorted: seq<nat>)
    requires Within(ids, |keys|)
    ensures Within(sorted, |keys|)
    ensures forall i :: i in sorted <==> i in ids
  {
    if ids == [] then []
    else
      var last := |ids| - 1;
      InsertKeeps(SortBy(ids[..last], keys), ids[last], keys);
      assert ids == ids[..last] + [ids[last]];
      InsertBy(SortBy(ids[..last], keys), ids[last], keys)
  }

  lemma {:induction false} InsertKeeps(ids: seq<nat>, id: nat, keys: seq<int>)
    requires id < |keys| && Within(ids, |keys|)
    ensures Within(InsertBy(ids, id, keys), |keys|)
    ensures forall i :: i in InsertBy(ids, id, keys) <==> i in ids || i == id
  {
    if ids == [] || keys[id] < keys[ids[0]] {
    } else {
      InsertKeeps(ids[1..], id, keys);
      assert ids == [ids[0]] + ids[1..];
    }
  }

  function NonPending(requests: seq<AccessRequest>, ids: seq<nat>): (found: seq<nat>)
    requires Within(ids, |requests|)
    ensures Within(found, |requests|)
    ensures forall r :: r in found <==> r in ids && requests[r].status != Pending
    decreases |ids|
  {
    if ids == [] then []
    else
      assert forall r :: r in ids <==> r == ids[0] || r in ids[1..];
      (if requests[ids[0]].status == Pending then [] else [ids[0]]) + NonPending(requests, ids[1..])
  }

  function RevokedOnly(leases: seq<Lease>, ids: seq<nat>): (found: seq<nat>)
    requires Within(ids, |leases|)
    ensures Within(found, |leases|)
    ensures forall l :: l in found <==> l in ids && leases[l].revokedAt.Some?
    decreases |ids|
  {
    if ids == [] then []
    else
      assert forall l :: l in ids <==> l == ids[0] || l in ids[1..];
      (if leases[ids[0]].revokedAt == None then [] else [ids[0]]) + RevokedOnly(leases, ids[1..])
  }

  /** Deletes the listed entries in order until the map is below its limit. */
  function Evict(ids: seq<nat>, victims: seq<nat>, limit: nat): (seq<nat>, bool)
    decreases |victims|
  {
    if victims == [] then (ids, false)
    else
      var kept := Without(ids, victims[0]);
      if |kept| < limit then (kept, true) else Evict(kept, victims[1..], limit)
  }

  function RequestKeys(requests: seq<AccessRequest>): seq<int> {
    seq(|requests|, i requires 0 <= i < |requests| => TerminalTime(requests[i]))
  }

  function LeaseKeys(leases: seq<Lease>): seq<int> {
    seq(|leases|, i requires 0 <= i < |leases| => RevocationTime(leases[i]))
  }

  /** `ensureAccessRequestCapacity`: the remaining entries, and whether there is room. */
  function RequestRoom(s: Broker): (seq<nat>, bool)
    requires IdsInHeap(s)
  {
    if |s.requestIds| < ACCESS_REQUEST_RECORD_LIMIT then (s.requestIds, true)
    else Evict(s.requestIds, SortBy(NonPending(s.requests, s.requestIds), RequestKeys(s.requests)), ACCESS_REQUEST_RECORD_LIMIT)
  }

  function LeaseRoom(s: Broker): (seq<nat>, bool)
    requires IdsInHeap(s)
  {
    if |s.leaseIds| < LEASE_RECORD_LIMIT then (s.leaseIds, true)
    else Evict(s.leaseIds, SortBy(RevokedOnly(s.leases, s.leaseIds), LeaseKeys(s.leases)), LEASE_RECORD_LIMIT)
  }

  // ---------------------------------------------------------- access requests

  function ResetIfNeeded(window: Window, now: int): Window {
    if window.startedAt == 0 || now < window.startedAt || now - window.startedAt >= ACCESS_REQUEST_RATE_WINDOW_MS
    then Window(now, 0)
    else window
  }

  /** `reserveAccessRequestRate`: both windows roll over even when the request is then refused. */
  function ReserveRate(s: Broker, ctx: nat, now: int): (Broker, Option<Code>)
    requires ctx < |s.contexts|
  {
    var own := s.contexts[ctx].window;
    var session := if own.Some? then ResetIfNeeded(own.value, now) else Window(now, 0);
    var global := ResetIfNeeded(s.globalWindow, now);
    if session.count >= ACCESS_REQUESTS_PER_SESSION_WINDOW then
      (PutWindows(s, ctx, session, global), Some(AccessRequestRateLimit))
    else if global.count >= ACCESS_REQUESTS_GLOBAL_WINDOW then
      (PutWindows(s, ctx, session, global), Some(GlobalAccessRequestRateLimit))
    else
      (PutWindows(s, ctx, session.(count := session.count + 1), global.(count := global.count + 1)), None)
  }

  function PutWindows(s: Broker, ctx: nat, session: Window, global: Window): Broker
    requires ctx < |s.contexts|
  {
    s.(contexts := s.contexts[ctx := s.contexts[ctx].(window := Some(session))], globalWindow := global)
  }

  /** The number of pending requests among the first entries, over all sessions. */
  function PendingCount(requests: seq<AccessRequest>, ids: seq<nat>): nat
    requires Within(ids, |requests|)
    decreases |ids|
  {
    if ids == [] then 0
    else PendingCount(requests, ids[..|ids| - 1]) + if requests[ids[|ids| - 1]].status == Pending then 1 else 0
  }

  /** The same for one session. */
  function SessionPendingCount(requests: seq<AccessRequest>, ids: seq<nat>, session: nat): nat
    requires Within(ids, |requests|)
    decreases |ids|
  {
    if ids == [] then 0
    else
      var r := ids[|ids| - 1];
      SessionPendingCount(requests, ids[..|ids| - 1], session)
      + if requests[r].status == Pending && requests[r].session == session then 1 else 0
  }

  /** Validated parameters of `access.request`. */
  datatype RequestParams = RequestParams(scopes: seq<Scope>, provider: Option<string>)

  /** Releasing data to a model needs a declared provider. */
  predicate RequestParamsValid(params: RequestParams) {
    1 <= |params.scopes| <= 7 && (DataEgressModel in params.scopes ==> params.provider.Some?)
  }

  function Dedup(scopes: seq<Scope>): (distinct: seq<Scope>)
    ensures forall x :: x in distinct <==> x in scopes
    ensures forall i, j | 0 <= i < j < |distinct| :: distinct[i] != distinct[j]
  {
    if scopes == [] then []
    else
      var last := |scopes| - 1;
      var before := Dedup(scopes[..last]);
      assert scopes == scopes[..last] + [scopes[last]];
      if scopes[last] in before then before else before + [scopes[last]]
  }

  function NewRequest(s: Broker, ctx: nat, params: RequestParams, now: int): AccessRequest
    requires ctx < |s.contexts|
  {
    AccessRequest(ctx, s.contexts[ctx].clientId, s.contexts[ctx].taskId, Dedup(params.scopes), params.provider,
                  now, now + ACCESS_REQUEST_TTL_MS, Pending, None, None)
  }

  /** `access.request` up to its audit write; the value is the new request's identifier. */
  function RequestAccess(s: Broker, ctx: nat, params: RequestParams, now: int): (Broker, Reply<nat>)
    requires IdsInHeap(s) && ctx < |s.contexts|
  {
    if !RequestParamsValid(params) then (s, Throw(InvalidParams))
    else
      var (reserved, refusal) := ReserveRate(ExpireRecords(s, now), ctx, now);
      if refusal.Some? then (reserved, Throw(refusal.value)) else CreateRequest(reserved, ctx, params, now)
  }

  /** Why the pending limits refuse another request, if they do. */
  function PendingRefusal(s: Broker, ctx: nat): Option<Code>
    requires IdsInHeap(s)
  {
    if SessionPendingCount(s.requests, s.requestIds, ctx) >= ACCESS_PENDING_PER_SESSION_LIMIT then Some(SessionPendingLimit)
    else if PendingCount(s.requests, s.requestIds) >= ACCESS_PENDING_GLOBAL_LIMIT then Some(GlobalPendingLimit)
    else None
  }

  /** The part of `access.request` after its rate was reserved. */
  function CreateRequest(s: Broker, ctx: nat, params: RequestParams, now: int): (Broker, Reply<nat>)
    requires IdsInHeap(s) && ctx < |s.contexts|
  {
    var refusal := PendingRefusal(s, ctx);
    if refusal.Some? then (s, Throw(refusal.value))
    else
      var (kept, room) := RequestRoom(s);
      var roomy := s.(requestIds := kept);
      if !room then (roomy, Throw(AccessRecordCapacity))
      else (AddRequest(roomy, NewRequest(s, ctx, params, now)), Done(|s.requests|))
  }

  function AddRequest(s: Broker, request: AccessRequest): Broker {
    s.(requests := s.requests + [request], requestIds := s.requestIds + [|s.requests|])
  }

  // ------------------------------------------------------------------- grants

  datatype GrantParams = GrantParams(
    requestId: nat, browserInstanceId: string, tabId: nat, documentId: string, origin: string, urlOrigin: string,
    scopes: seq<Scope>, ttlSeconds: Option<nat>)

  predicate GrantParamsValid(params: GrantParams) {
    && 1 <= |params.scopes| <= 7
    && 1 <= |params.documentId| <= 128
    && (params.ttlSeconds.Some? ==> 30 <= params.ttlSeconds.value <= 600)
  }

  function LeaseTtl(params: GrantParams): nat {
    var wanted := (if params.ttlSeconds.Some? then params.ttlSeconds.value else DEFAULT_LEASE_TTL_MS / 1000) * 1000;
    if wanted <= MAX_LEASE_TTL_MS then wanted else MAX_LEASE_TTL_MS
  }

  function ProtocolScopes(scopes: seq<Scope>, provider: string): seq<ProtocolScope> {
    seq(|scopes|, i requires 0 <= i < |scopes| =>
      if scopes[i] == DataEgressModel then ModelEgress(provider, 1_000_000) else Fixed(scopes[i]))
  }

  /** The claims the issuer signs for a grant. */
  function GrantClaims(s: Broker, request: AccessRequest, params: GrantParams, now: int): Claims {
    var provider := if request.provider.Some? then request.provider.value else "";
    Claims(|s.leases|, request.clientId, request.taskId, params.browserInstanceId, params.tabId, params.documentId, params.origin,
           ProtocolScopes(Dedup(params.scopes), provider), ["visible", "private"],
           if request.provider.Some? then [request.provider.value] else [],
           now, now + LeaseTtl(params), LEASE_IDLE_TIMEOUT_MS, LEASE_USE_LIMIT, request.clientId, POLICY_VERSION)
  }

  /** `CapabilityIssuer.issue`: throws when the claims do not satisfy the protocol's schema. */
  function IssueCapability(secret: nat, claims: Claims): Option<Capability> {
    if ClaimsWellFormed(claims) then Some(Capability(claims, Mac(secret, claims))) else None
  }

  /** `CapabilityIssuer.verify`. */
  predicate VerifyCapability(secret: nat, capability: Capability) {
    ClaimsWellFormed(capability.claims) && capability.signature == Mac(secret, capability.claims)
  }

  function NewLease(request: AccessRequest, params: GrantParams, capability: Capability, now: int): Lease {
    var c := capability.claims;
    var policy := PolicyLease(c.capabilityId, request.clientId, request.taskId, params.browserInstanceId, params.tabId,
                              params.documentId, params.origin, Active, now, now + LeaseTtl(params), now,
                              LEASE_IDLE_TIMEOUT_MS, c.useLimit, None);
    Lease(params.requestId, request.session, request.clientId, request.taskId, params.browserInstanceId, params.tabId,
          params.documentId, params.origin, Dedup(params.scopes), capability, policy, now, now + LeaseTtl(params), now,
          0, now, 0, if DataEgressModel in params.scopes then LEASE_EGRESS_BUDGET_BYTES else 0, None, None)
  }

  /** Why `access.grant` refuses before it looks for room; expiring the request on the way is separate. */
  function GrantRefusal(s: Broker, ctx: nat, params: GrantParams, now: int): Option<Code>
    requires IdsInHeap(s) && ctx < |s.contexts|
  {
    if !GrantParamsValid(params) then Some(InvalidParams)
    else if s.contexts[ctx].browserInstanceId != Some(params.browserInstanceId) then Some(BrowserIdMismatch)
    else if params.requestId !in s.requestIds || s.requests[params.requestId].status != Pending then Some(AccessRequestNotPending)
    else if s.requests[params.requestId].expiresAt <= now then Some(AccessRequestHasExpired)
    else if exists x | x in params.scopes :: x !in s.requests[params.requestId].scopes then Some(ScopeEscalation)
    else if params.urlOrigin != params.origin then Some(OriginMismatch)
    else None
  }

  /** `access.grant` up to its audit write; the value is the new lease's identifier. */
  function GrantAccess(s: Broker, ctx: nat, params: GrantParams, now: int): (Broker, Reply<nat>)
    requires IdsInHeap(s) && ctx < |s.contexts|
  {
    var refusal := GrantRefusal(s, ctx, params, now);
    if refusal == Some(AccessRequestHasExpired) then (CheckRequest(s, params.requestId, now), Throw(AccessRequestHasExpired))
    else if refusal.Some? then (s, Throw(refusal.value))
    else
      var (kept, room) := LeaseRoom(s);
      var roomy := s.(leaseIds := kept);
      if !room then (roomy, Throw(LeaseRecordCapacity))
      else
        var request := s.requests[params.requestId];
        var capability := IssueCapability(s.secret, GrantClaims(s, request, params, now));
        if capability == None then (roomy, Throw(InvalidClaims))
        else (AddLease(roomy, params.requestId, NewLease(request, params, capability.value, now), now), Done(|s.leases|))
  }

  function AddLease(s: Broker, r: nat, lease: Lease, now: int): Broker
    requires r < |s.requests|
  {
    s.(requests := s.requests[r := EndedRequest(s.requests[r], Granted, now).(leaseId := Some(|s.leases|))],
       leases := s.leases + [lease],
       leaseIds := s.leaseIds + [|s.leases|])
  }

  /** `access.deny`. */
  function DenyAccess(s: Broker, r: nat, now: int): (Broker, Reply<nat>)
    requires IdsInHeap(s)
  {
    if r !in s.requestIds || s.requests[r].status != Pending then (s, Throw(AccessRequestNotPending))
    else (PutRequest(s, r, EndedRequest(s.requests[r], Denied, now)), Done(r))
  }

  // -------------------------------------------------------------- revocation

  /** `access.revoke` by the agent that owns the lease. */
  function AgentRevoke(s: Broker, ctx: nat, l: nat, now: int): (Broker, Reply<nat>)
    requires IdsInHeap(s)
  {
    if l !in s.leaseIds || s.leases[l].session != ctx then (s, Throw(LeaseNotFound))
    else (RevokeLease(s, l, "AGENT_REVOKED", now), Done(l))
  }

  /** `access.revoke` by the browser instance the lease was granted on, with the reason it gives. */
  function BrowserRevoke(s: Broker, ctx: nat, l: nat, reason: string, now: int): (Broker, Reply<nat>)
    requires IdsInHeap(s) && ctx < |s.contexts|
  {
    if l !in s.leaseIds || s.contexts[ctx].browserInstanceId != Some(s.leases[l].browserInstanceId) then (s, Throw(LeaseNotFound))
    else (RevokeLease(s, l, reason, now), Done(l))
  }

  /** `browser.register`. */
  function RegisterBrowser(s: Broker, ctx: nat, instance: string): Broker
    requires ctx < |s.contexts|
  {
    s.(contexts := s.contexts[ctx := s.contexts[ctx].(browserInstanceId := Some(instance))], browsers := s.browsers[instance := ctx])
  }

  function RevokeOnBrowser(s: Broker, ids: seq<nat>, instance: string, now: int): (after: Broker)
    requires Within(ids, |s.leases|)
    ensures |after.requests| == |s.requests| && |after.leases| == |s.leases|
    ensures after == s.(requests := after.requests, leases := after.leases)
    decreases |ids|
  {
    if ids == [] then s
    else
      var next := if s.leases[ids[0]].browserInstanceId == instance then RevokeLease(s, ids[0], "BROWSER_DISCONNECTED", now) else s;
      RevokeOnBrowser(next, ids[1..], instance, now)
  }

  function RevokePending(s: Broker, ids: seq<nat>, session: nat, now: int): (after: Broker)
    requires Within(ids, |s.requests|)
    ensures |after.requests| == |s.requests| && |after.leases| == |s.leases|
    ensures after == s.(requests := after.requests)
    decreases |ids|
  {
    if ids == [] then s
    else
      var r := ids[0];
      var next := if s.requests[r].session == session && s.requests[r].status == Pending
                  then PutRequest(s, r, EndedRequest(s.requests[r], RequestRevoked, now)) else s;
      RevokePending(next, ids[1..], session, now)
  }

  function RevokeSession(s: Broker, ids: seq<nat>, session: nat, now: int): (after: Broker)
    requires Within(ids, |s.leases|)
    ensures |after.requests| == |s.requests| && |after.leases| == |s.leases|
    ensures after == s.(requests := after.requests, leases := after.leases)
    decreases |ids|
  {
    if ids == [] then s
    else
      var next := if s.leases[ids[0]].session == session then RevokeLease(s, ids[0], "AGENT_DISCONNECTED", now) else s;
      RevokeSession(next, ids[1..], session, now)
  }

  /**
   * `disconnected`. A context that registered a browser instance releases the instance it registered
   * last; any other context ends its session's pending requests and leases.
   */
  function Disconnect(s: Broker, ctx: nat, now: int): Broker
    requires IdsInHeap(s) && ctx < |s.contexts|
  {
    match s.contexts[ctx].browserInstanceId
    case Some(instance) => RevokeOnBrowser(s.(browsers := s.browsers - {instance}), s.leaseIds, instance, now)
    case None => RevokeSession(RevokePending(s, s.requestIds, ctx, now), s.leaseIds, ctx, now)
  }

  // ---------------------------------------------------------------- commands

  function KindOf(call: CommandCall): Kind {
    match call
    case Snapshot(_) => SnapshotKind
    case HighlightElement => HighlightKind
    case ScrollPage(_) => ScrollKind
    case NavigateTo(_) => NavigateKind
  }

  predicate CallValid(call: CommandCall) {
    match call
    case Snapshot(maxNodes) => 1 <= maxNodes <= 500
    case ScrollPage(deltaY) => -2_000 <= deltaY <= 2_000
    case _ => true
  }

  /** The scopes a command needs on the broker's own lease record. */
  function NeededScopes(call: CommandCall): seq<Scope> {
    match call
    case Snapshot(_) => [PageA11yRead, DataEgressModel]
    case HighlightElement => [PageHighlight]
    case ScrollPage(_) => [PageScroll]
    case NavigateTo(_) => [NavigateSameOrigin]
  }

  predicate ScopesGranted(lease: Lease, call: CommandCall) {
    forall x | x in NeededScopes(call) :: x in lease.scopes
  }

  /** `actionForCommand`; a highlight has no policy action. */
  function ActionFor(call: CommandCall): Option<Action> {
    match call
    case Snapshot(maxNodes) => Some(ReadA11y(maxNodes))
    case HighlightElement => None
    case ScrollPage(deltaY) => Some(Scroll(0, deltaY))
    case NavigateTo(destination) => Some(Navigate(destination))
  }

  /** The question `authorizeCommand` puts to the policy engine. */
  function PolicyQuestion(s: Broker, lease: Lease, action: Action, now: int): PolicyRequest {
    PolicyRequest(Prepare, Parsed(action), lease.capability, lease.policy, None,
      PolicyContext(now, lease.clientId, lease.taskId, lease.browserInstanceId, lease.tabId, lease.documentId, lease.origin,
                    lease.clientId, POLICY_VERSION, None, VerifyCapability(s.secret, lease.capability), true,
                    lease.policy.remainingUses > 0))
  }

  /** `authorizeCommand`: the code it throws, if it does. */
  function AuthorizeCommand(s: Broker, lease: Lease, call: CommandCall, now: int): Option<Code> {
    match ActionFor(call)
    case None => if PageHighlight in lease.scopes then None else Some(ScopeRequired)
    case Some(action) =>
      match EvaluatePolicy(PolicyQuestion(s, lease, action, now))
      case Allow(_) => None
      case AllowPrepare(_) => Some(Code.PolicyDenied(ErrorCode.PrepareRequired))
      case Deny(_, code) => Some(Code.PolicyDenied(code))
  }

  function RolledWindow(lease: Lease, now: int): Lease {
    if now - lease.windowStartedAt >= LEASE_COMMAND_WINDOW_MS then lease.(windowStartedAt := now, commandsInWindow := 0) else lease
  }

  /** `reserveCommand`: the lease afterwards, and the code it throws, if it does. */
  function ReserveCommand(lease: Lease, now: int): (Lease, Option<Code>) {
    if lease.inFlight >= LEASE_MAX_IN_FLIGHT then (lease, Some(LeaseConcurrencyLimit))
    else
      var rolled := RolledWindow(lease, now);
      if rolled.commandsInWindow >= LEASE_COMMANDS_PER_WINDOW then (rolled, Some(LeaseRateLimit))
      else if rolled.policy.remainingUses <= 0 then (rolled, Some(UseLimitExhausted))
      else
        (rolled.(
           inFlight := rolled.inFlight + 1,
           commandsInWindow := rolled.commandsInWindow + 1,
           lastUsedAt := now,
           policy := rolled.policy.(remainingUses := rolled.policy.remainingUses - 1, lastUsedAt := now)), None)
  }

  /** `requireOwnedLease` with the active check: the code it throws, if it does. */
  function OwnershipRefusal(s: Broker, ctx: nat, l: nat, now: int): Option<Code>
    requires IdsInHeap(s)
  {
    if l !in s.leaseIds || s.leases[l].session != ctx then Some(LeaseNotFound)
    else if !LeaseActive(s.leases[l], now) then Some(LeaseNotActive)
    else None
  }

  /** The checks of a command on the lease record, in the order the handlers make them. */
  function CommandRefusal(s: Broker, ctx: nat, l: nat, call: CommandCall, now: int): Option<Code>
    requires IdsInHeap(s)
  {
    var refusal := OwnershipRefusal(s, ctx, l, now);
    if !CallValid(call) then Some(InvalidParams)
    else if refusal.Some? then refusal
    else if !ScopesGranted(s.leases[l], call) then Some(ScopeRequired)
    else if call.NavigateTo? && call.destination != s.leases[l].origin then Some(OriginChanged)
    else None
  }

  /** A command from its call up to the request to the browser; the value is the command's identifier. */
  function BeginCommand(s: Broker, ctx: nat, l: nat, call: CommandCall, now: int): (Broker, Reply<nat>)
    requires IdsInHeap(s)
  {
    var refusal := CommandRefusal(s, ctx, l, call, now);
    if refusal == Some(LeaseNotActive) then (CheckLease(s, l, now), Throw(LeaseNotActive))
    else if refusal.Some? then (s, Throw(refusal.value))
    else ExecuteWithLease(s, l, call, now)
  }

  /** `executeWithLease` up to the request to the browser. */
  function ExecuteWithLease(s: Broker, l: nat, call: CommandCall, now: int): (Broker, Reply<nat>)
    requires l < |s.leases|
  {
    if s.leases[l].browserInstanceId !in s.browsers then (RevokeLease(s, l, "BROWSER_DISCONNECTED", now), Throw(BrowserDisconnected))
    else
      var denial := AuthorizeCommand(s, s.leases[l], call, now);
      if denial.Some? then (s, Throw(denial.value)) else AdmitCommand(s, l, KindOf(call), now)
  }

  /** `reserveCommand` on the lease record, and the suspension of the command if it is admitted. */
  function AdmitCommand(s: Broker, l: nat, kind: Kind, now: int): (Broker, Reply<nat>)
    requires l < |s.leases|
  {
    var (lease, full) := ReserveCommand(s.leases[l], now);
    if full.Some? then (PutLease(s, l, lease), Throw(full.value))
    else (AddCommand(PutLease(s, l, lease), Command(l, kind, now, AwaitBrowser)), Done(|s.commands|))
  }

  function AddCommand(s: Broker, command: Command): Broker {
    s.(commands := s.commands + [command])
  }

  function PutStage(s: Broker, c: nat, stage: Stage): Broker
    requires c < |s.commands|
  {
    s.(commands := s.commands[c := s.commands[c].(stage := stage)])
  }

  /** What the browser answered: an error or timeout, or a result of so many JSON bytes (`None`: not JSON). */
  datatype BrowserAnswer = BrowserError | BrowserResult(bytes: Option<nat>)

  /** `reserveSnapshotEgress`: why the result is refused, if it is. */
  function EgressRefusal(lease: Lease, bytes: Option<nat>): Option<Code> {
    if bytes == None then Some(InvalidBrowserResponse)
    else if bytes.value > SNAPSHOT_MAX_RESULT_BYTES then Some(SnapshotTooLarge)
    else if bytes.value > lease.remainingEgress then Some(EgressBudgetExceeded)
    else None
  }

  /**
   * The browser replied. Only if the lease is still active now does the result go on to its success
   * audit; a snapshot also reserves its bytes. Every failure goes to the denial audit instead.
   */
  function BrowserReplied(s: Broker, c: nat, answer: BrowserAnswer, now: int): Broker
    requires c < |s.commands| && s.commands[c].lease < |s.leases|
  {
    var l := s.commands[c].lease;
    if answer.BrowserError? then PutStage(s, c, AwaitDenial)
    else if !LeaseActive(s.leases[l], now) then PutStage(CheckLease(s, l, now), c, AwaitDenial)
    else if s.commands[c].kind != SnapshotKind then PutStage(s, c, AwaitAudit(0, now))
    else if EgressRefusal(s.leases[l], answer.bytes).Some? then PutStage(s, c, AwaitDenial)
    else
      var bytes := answer.bytes.value;
      PutStage(PutLease(s, l, s.leases[l].(remainingEgress := s.leases[l].remainingEgress - bytes)), c, AwaitAudit(bytes, now))
  }

  /** The `finally` block: one command less in flight, and an exhausted lease ends with its last command. */
  function Finish(s: Broker, l: nat, now: int): Broker
    requires l < |s.leases|
  {
    var finished := PutLease(s, l, s.leases[l].(inFlight := s.leases[l].inFlight - 1));
    if finished.leases[l].policy.remainingUses <= 0 && finished.leases[l].inFlight == 0
    then RevokeLease(finished, l, "USE_LIMIT_EXHAUSTED", now)
    else finished
  }

  /** The success audit was written and the result returned, or it threw and the bytes are refunded. */
  function SuccessAudited(s: Broker, c: nat, written: bool, now: int): Broker
    requires c < |s.commands| && s.commands[c].lease < |s.leases| && s.commands[c].stage.AwaitAudit?
  {
    var l, stage := s.commands[c].lease, s.commands[c].stage;
    if written then Finish(PutStage(s, c, Returned(stage.reserved, stage.checkedAt)), l, now)
    else
      PutStage(PutLease(s, l, s.leases[l].(remainingEgress := s.leases[l].remainingEgress + stage.reserved)), c, AwaitDenial)
  }

  /** The denial audit was written or threw; either way the command fails. */
  function DenialAudited(s: Broker, c: nat, now: int): Broker
    requires c < |s.commands| && s.commands[c].lease < |s.leases|
  {
    Finish(PutStage(s, c, Failed), s.commands[c].lease, now)
  }

  // --------------------------------------------------------------------- runs

  datatype Event =
    | ECreate(role: Role, clientId: string, taskId: string)
    | EOther
    | ERequest(ctx: nat, request: RequestParams)
    | EStatus(ctx: nat)
    | EAgentRevoke(ctx: nat, l: nat)
    | EExecute(ctx: nat, l: nat, call: CommandCall)
    | ERegister(ctx: nat, instance: string)
    | EGrant(ctx: nat, grant: GrantParams)
    | EDeny(ctx: nat, r: nat)
    | EBrowserRevoke(ctx: nat, l: nat, reason: string)
    | EGrantReply(l: nat)
    | EBrowserReply(c: nat, answer: BrowserAnswer)
    | ESuccessAudit(c: nat, written: bool)
    | EDenialAudit(c: nat)
    | EDisconnect(ctx: nat)

  predicate IsAgent(s: Broker, ctx: nat) {
    ctx < |s.contexts| && s.contexts[ctx].role == AgentRole
  }

  predicate IsBrowser(s: Broker, ctx: nat) {
    ctx < |s.contexts| && s.contexts[ctx].role == BrowserRole
  }

  /** Calls go through `handle`; the rest are segments after an await, or connection changes. */
  predicate IsCall(e: Event) {
    e.EOther? || e.ERequest? || e.EStatus? || e.EAgentRevoke? || e.EExecute?
    || e.ERegister? || e.EGrant? || e.EDeny? || e.EBrowserRevoke?
  }

  predicate Enabled(s: Broker, e: Event) {
    match e
    case ECreate(_, _, _) => true
    case EOther => true
    case ERequest(ctx, _) => IsAgent(s, ctx)
    case EStatus(ctx) => ctx < |s.contexts|
    case EAgentRevoke(ctx, _) => IsAgent(s, ctx)
    case EExecute(ctx, _, _) => IsAgent(s, ctx)
    case ERegister(ctx, _) => IsBrowser(s, ctx)
    case EGrant(ctx, _) => IsBrowser(s, ctx)
    case EDeny(ctx, _) => IsBrowser(s, ctx)
    case EBrowserRevoke(ctx, _, _) => IsBrowser(s, ctx)
    case EGrantReply(l) => l < |s.leases|
    case EBrowserReply(c, _) => c < |s.commands| && s.commands[c].lease < |s.leases| && s.commands[c].stage.AwaitBrowser?
    case ESuccessAudit(c, _) => c < |s.commands| && s.commands[c].lease < |s.leases| && s.commands[c].stage.AwaitAudit?
    case EDenialAudit(c) => c < |s.commands| && s.commands[c].lease < |s.leases| && s.commands[c].stage.AwaitDenial?
    case EDisconnect(ctx) => ctx < |s.contexts|
  }

  /** The handler of a call, after `maintainState`. Status, tab and pending lists expire records again. */
  function Handle(s: Broker, e: Event, now: int): Broker
    requires IdsInHeap(s) && IsCall(e) && Enabled(s, e)
  {
    match e
    case ERequest(ctx, params) => RequestAccess(s, ctx, params, now).0
    case EStatus(_) => ExpireRecords(s, now)
    case EAgentRevoke(ctx, l) => AgentRevoke(s, ctx, l, now).0
    case EExecute(ctx, l, call) => BeginCommand(s, ctx, l, call, now).0
    case ERegister(ctx, instance) => ExpireRecords(RegisterBrowser(s, ctx, instance), now)
    case EGrant(ctx, params) => GrantAccess(s, ctx, params, now).0
    case EDeny(_, r) => DenyAccess(s, r, now).0
    case EBrowserRevoke(ctx, l, reason) => BrowserRevoke(s, ctx, l, reason, now).0
    case _ => s
  }

  function Resume(s: Broker, e: Event, now: int): Broker
    requires IdsInHeap(s) && !IsCall(e) && Enabled(s, e)
  {
    match e
    case ECreate(role, clientId, taskId) => s.(contexts := s.contexts + [Context(role, clientId, taskId, None, None)])
    case EGrantReply(l) => CheckLease(s, l, now)
    case EBrowserReply(c, answer) => BrowserReplied(s, c, answer, now)
    case ESuccessAudit(c, written) => SuccessAudited(s, c, written, now)
    case EDenialAudit(c) => DenialAudited(s, c, now)
    case EDisconnect(ctx) => Disconnect(s, ctx, now)
    case _ => s
  }

  /** One segment. An event that is not enabled does nothing. */
  function Step(s: Broker, e: Event, now: int): Broker {
    if !IdsInHeap(s) || !Enabled(s, e) then s
    else if IsCall(e) then Handle(Maintain(s, now), e, now)
    else Resume(s, e, now)
  }

  datatype Timed = Timed(now: int, event: Event)

  /**
   * A run: any interleaving of segments of any number of connections. `states[i]` is the broker before
   * event `i`, so the last state is the one after all events.
   */
  datatype Execution = Execution(secret: nat, states: seq<Broker>, events: seq<Timed>)

  ghost predicate StepsTo(x: Execution, i: nat)
    requires i < |x.events| && |x.states| == |x.events| + 1
  {
    x.states[i + 1] == Step(x.states[i], x.events[i].event, x.events[i].now)
  }

  /** The clock is positive and never goes back along a run. */
  ghost predicate Timely(events: seq<Timed>) {
    && (forall i | 0 <= i < |events| :: 0 < events[i].now)
    && (forall i, j | 0 <= i <= j < |events| :: events[i].now <= events[j].now)
  }

  ghost predicate Behaves(x: Execution) {
    && |x.states| == |x.events| + 1 && x.states[0] == Start(x.secret) && Timely(x.events)
    && forall i: nat | i < |x.events| :: StepsTo(x, i)
  }

  /** The clock reading that state `i` of a run has reached. */
  function Clock(x: Execution, i: nat): int
    requires i <= |x.events|
  {
    if i == 0 then 0 else x.events[i - 1].now
  }

  /** The states that a sequence of events leads through. */
  function States(secret: nat, events: seq<Timed>): (states: seq<Broker>)
    ensures |states| == |events| + 1
  {
    if events == [] then [Start(secret)]
    else
      var last := |events| - 1;
      var before := States(secret, events[..last]);
      before + [Step(before[last], events[last].event, events[last].now)]
  }

  /** The states led through are a run, so every timely sequence of events has one. */
  lemma {:induction false} EventsLead(secret: nat, events: seq<Timed>)
    requires Timely(events)
    ensures Behaves(Execution(secret, States(secret, events), events))
  {
    hide Step, Start;
    var x := Execution(secret, States(secret, events), events);
    if events != [] {
      var last := |events| - 1;
      var earlier := Execution(secret, States(secret, events[..last]), events[..last]);
      EventsLead(secret, events[..last]);
      forall i: nat | i < |events| ensures StepsTo(x, i) {
        assert i < last ==> StepsTo(earlier, i);
      }
    }
  }
}
