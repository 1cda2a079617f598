/** The policy engine: a second authorisation layer evaluated before every browser command. */
module Policy {
  import opened Wrappers

  /** The scopes the broker implements. */
  datatype Scope =
    | TabMetadataRead | PageA11yRead | ElementInspect | PageScroll | PageHighlight
    | NavigateSameOrigin | DataEgressModel

  /** Scopes of the protocol that the broker never grants but the engine knows. */
  datatype ProtocolScope =
    | Fixed(scope: Scope)
    | ScreenshotRead | ClickReversible | FormDraft
    | AllowedOrigin(origin: string)
    | ModelEgress(providerId: string, maxBytes: nat)
    | ActionPrepare(actionTypes: seq<string>)

  datatype ElementReference = ElementReference(
    tabId: nat, documentId: string, topLevelOrigin: string, domEpoch: nat, issuedAt: int, expiresAt: int)

  datatype FormField = FormField(target: ElementReference, dataClass: string)

  datatype Risk = R0 | R1 | R2 | R3 | R4

  /**
   * A parsed action. A navigation carries the origin of its URL. The R2 and R3 kinds are one
   * constructor; their commit-time approval is abstracted in `PolicyRequest.approvalFailure`.
   */
  datatype Action =
    | ReadA11y(maxNodes: int)
    | ReadScreenshot
    | Scroll(deltaX: int, deltaY: int)
    | Highlight(target: ElementReference)
    | Click(target: ElementReference)
    | Draft(fields: seq<FormField>)
    | Navigate(destination: string)
    | HighRisk(kind: string, manualOnly: bool, targets: seq<ElementReference>)

  /** What `ActionSchema` makes of the untrusted action. */
  datatype RawAction = Prohibited(code: ErrorCode) | Malformed | Parsed(action: Action)

  datatype ErrorCode =
    | SecretAccessForbidden | CookieAccessForbidden | ArbitraryCodeForbidden | CdpAccessForbidden
    | UnknownAction | CapabilityInvalid | EnterprisePolicyDenied | RateLimited
    | CapabilityContextMismatch | CapabilityExpired | LeaseRevoked | LeaseExpired
    | StaleElementReference | CapabilityScopeDenied | PrepareRequired | RiskNotSupported | ApprovalFailed

  datatype Claims = Claims(
    capabilityId: nat, clientId: string, taskId: string, browserProfileInstance: string, tabId: nat,
    documentId: string, topLevelOrigin: string, scopes: seq<ProtocolScope>, dataClasses: seq<string>,
    egressDestinations: seq<string>, issuedAt: int, expiresAt: int, idleTimeoutMs: int, useLimit: int,
    audience: string, policyVersion: string)

  /** A message authentication code is symbolic: the key and the authenticated claims. */
  datatype Mac = Mac(key: nat, claims: Claims)

  datatype Capability = Capability(claims: Claims, signature: Mac)

  datatype LeaseState = Active | Revoked | Expired

  datatype PolicyLease = PolicyLease(
    capabilityId: nat, clientId: string, taskId: string, browserProfileInstance: string, tabId: nat,
    documentId: string, topLevelOrigin: string, state: LeaseState, issuedAt: int, expiresAt: int,
    lastUsedAt: int, idleTimeoutMs: int, remainingUses: int, revokedAt: Option<int>)

  datatype PolicyContext = PolicyContext(
    now: int, clientId: string, taskId: string, browserProfileInstance: string, tabId: nat,
    documentId: string, topLevelOrigin: string, audience: string, policyVersion: string,
    currentDomEpoch: Option<nat>, capabilitySignatureVerified: bool, enterpriseAllowed: bool, rateLimitAllowed: bool)

  datatype Phase = Prepare | Commit

  datatype PolicyRequest = PolicyRequest(
    phase: Phase, action: RawAction, capability: Capability, lease: PolicyLease,
    approvalFailure: Option<ErrorCode>, context: PolicyContext)

  datatype Decision = Allow(risk: Risk) | AllowPrepare(prepareRisk: Risk) | Deny(deniedRisk: Risk, code: ErrorCode)

  // ---------------------------------------------------------------- schemas

  predicate Alphanumeric(c: char) {
    'A' <= c <= 'Z' || 'a' <= c <= 'z' || '0' <= c <= '9'
  }

  /** `IdentifierSchema`: stricter than the identifiers a client may claim, which may start with a dot. */
  predicate Identifier(text: string) {
    && 1 <= |text| <= 128
    && Alphanumeric(text[0])
    && forall i | 1 <= i < |text| :: Alphanumeric(text[i]) || text[i] in {'.', '_', ':', '-'}
  }

  predicate DistinctScopes(scopes: seq<ProtocolScope>) {
    forall i, j | 0 <= i < j < |scopes| :: scopes[i] != scopes[j]
  }

  predicate ScopeWellFormed(scope: ProtocolScope) {
    match scope
    case ModelEgress(providerId, maxBytes) => Identifier(providerId) && 0 < maxBytes <= 10_000_000
    case ActionPrepare(types) => 1 <= |types| <= 32 && forall i | 0 <= i < |types| :: Identifier(types[i])
    case _ => true
  }

  /** `CapabilityClaimsSchema`. */
  predicate ClaimsWellFormed(c: Claims) {
    && Identifier(c.clientId) && Identifier(c.taskId) && Identifier(c.browserProfileInstance)
    && Identifier(c.documentId) && Identifier(c.audience) && Identifier(c.policyVersion)
    && 1 <= |c.scopes| <= 32 && DistinctScopes(c.scopes)
    && (forall i | 0 <= i < |c.scopes| :: ScopeWellFormed(c.scopes[i]))
    && |c.dataClasses| <= 6 && |c.egressDestinations| <= 16
    && (forall i | 0 <= i < |c.egressDestinations| :: Identifier(c.egressDestinations[i]))
    && 0 <= c.issuedAt < c.expiresAt <= c.issuedAt + 600_000
    && 0 < c.idleTimeoutMs <= 120_000
    && 0 < c.useLimit <= 10_000
  }

  /** `LeaseSchema`. */
  predicate LeaseWellFormed(l: PolicyLease) {
    && Identifier(l.clientId) && Identifier(l.taskId) && Identifier(l.browserProfileInstance) && Identifier(l.documentId)
    && 0 <= l.issuedAt < l.expiresAt
    && l.issuedAt <= l.lastUsedAt <= l.expiresAt
    && 0 < l.idleTimeoutMs <= 120_000
    && 0 <= l.remainingUses <= 10_000
    && (l.state == Revoked ==> l.revokedAt.Some?)
  }

  // ------------------------------------------------------------- evaluation

  function RiskOf(action: Action): Risk {
    match action
    case ReadA11y(_) => R0
    case ReadScreenshot => R0
    case Scroll(_, _) => R0
    case Highlight(_) => R0
    case Click(_) => R1
    case Draft(_) => R1
    case Navigate(_) => R1
    case HighRisk(_, manualOnly, _) => if manualOnly then R3 else R2
  }

  predicate ContextMismatch(c: Claims, l: PolicyLease, x: PolicyContext) {
    || c.clientId != x.clientId || c.taskId != x.taskId
    || c.browserProfileInstance != x.browserProfileInstance || c.tabId != x.tabId
    || c.documentId != x.documentId || c.topLevelOrigin != x.topLevelOrigin
    || c.audience != x.audience || c.policyVersion != x.policyVersion
    || l.capabilityId != c.capabilityId || l.clientId != x.clientId || l.taskId != x.taskId
    || l.browserProfileInstance != x.browserProfileInstance || l.tabId != x.tabId
    || l.documentId != x.documentId || l.topLevelOrigin != x.topLevelOrigin
  }

  function ValidateGrant(c: Claims, l: PolicyLease, x: PolicyContext): Option<ErrorCode> {
    if !x.capabilitySignatureVerified then Some(CapabilityInvalid)
    else if !x.enterpriseAllowed then Some(EnterprisePolicyDenied)
    else if !x.rateLimitAllowed then Some(RateLimited)
    else if ContextMismatch(c, l, x) then Some(CapabilityContextMismatch)
    else if c.issuedAt > x.now || c.expiresAt <= x.now then Some(CapabilityExpired)
    else if l.issuedAt < c.issuedAt || l.expiresAt > c.expiresAt || l.idleTimeoutMs > c.idleTimeoutMs || l.remainingUses > c.useLimit
      then Some(CapabilityInvalid)
    else if l.state == Revoked then Some(LeaseRevoked)
    else if l.state != Active || l.expiresAt <= x.now then Some(LeaseExpired)
    else if l.lastUsedAt + l.idleTimeoutMs <= x.now || l.remainingUses <= 0 then Some(LeaseExpired)
    else None
  }

  function ReferencesFor(action: Action): seq<ElementReference> {
    match action
    case Highlight(target) => [target]
    case Click(target) => [target]
    case Draft(fields) => seq(|fields|, i requires 0 <= i < |fields| => fields[i].target)
    case HighRisk(_, _, targets) => targets
    case _ => []
  }

  predicate Stale(r: ElementReference, x: PolicyContext) {
    || r.expiresAt <= x.now || r.issuedAt > x.now
    || r.tabId != x.tabId || r.documentId != x.documentId || r.topLevelOrigin != x.topLevelOrigin
    || (x.currentDomEpoch.Some? && r.domEpoch != x.currentDomEpoch.value)
  }

  predicate DataClassAllowed(action: Action, c: Claims) {
    action.Draft? ==> forall i | 0 <= i < |action.fields| :: action.fields[i].dataClass in c.dataClasses
  }

  predicate RequiredScopePresent(action: Action, c: Claims) {
    match action
    case Navigate(destination) =>
      (destination == c.topLevelOrigin && Fixed(NavigateSameOrigin) in c.scopes) || AllowedOrigin(destination) in c.scopes
    case HighRisk(kind, _, _) => exists i | 0 <= i < |c.scopes| :: c.scopes[i].ActionPrepare? && kind in c.scopes[i].actionTypes
    case ReadA11y(_) => Fixed(PageA11yRead) in c.scopes
    case ReadScreenshot => ScreenshotRead in c.scopes
    case Scroll(_, _) => Fixed(PageScroll) in c.scopes
    case Highlight(_) => Fixed(PageHighlight) in c.scopes
    case Click(_) => ClickReversible in c.scopes
    case Draft(_) => FormDraft in c.scopes
  }

  function EvaluatePolicy(q: PolicyRequest): Decision {
    match q.action
    case Prohibited(code) => Deny(R4, code)
    case Malformed => Deny(R4, UnknownAction)
    case Parsed(action) =>
      if !ClaimsWellFormed(q.capability.claims) || !LeaseWellFormed(q.lease) then Deny(R4, CapabilityInvalid)
      else
        var c, references := q.capability.claims, ReferencesFor(action);
        var failure := ValidateGrant(c, q.lease, q.context);
        if failure.Some? then Deny(R4, failure.value)
        else if exists i | 0 <= i < |references| :: Stale(references[i], q.context) then Deny(R4, StaleElementReference)
        else if !DataClassAllowed(action, c) then Deny(R4, CapabilityScopeDenied)
        else if !RequiredScopePresent(action, c) then Deny(R4, CapabilityScopeDenied)
        else Decide(q, action)
  }

  /** The outcome once the grant, the references and the scope are in order. */
  function Decide(q: PolicyRequest, action: Action): Decision {
    var risk := RiskOf(action);
    if risk == R3 then if q.phase == Prepare then AllowPrepare(R3) else Deny(R3, RiskNotSupported)
    else if risk == R2 then
      if q.phase == Prepare then AllowPrepare(R2)
      else if q.approvalFailure.Some? then Deny(R2, q.approvalFailure.value)
      else Allow(R2)
    else if q.phase == Commit then Deny(risk, PrepareRequired)
    else Allow(risk)
  }

  // ------------------------------------------------------------- properties

  /** A lease that is live and within the capability it was cut from, in the caller's context. */
  ghost predicate GrantHolds(c: Claims, l: PolicyLease, x: PolicyContext) {
    && x.capabilitySignatureVerified && x.enterpriseAllowed && x.rateLimitAllowed
    && !ContextMismatch(c, l, x)
    && c.issuedAt <= x.now < c.expiresAt
    && c.issuedAt <= l.issuedAt && l.expiresAt <= c.expiresAt
    && l.idleTimeoutMs <= c.idleTimeoutMs && l.remainingUses <= c.useLimit
    && l.state == Active && x.now < l.expiresAt
    && x.now < l.lastUsedAt + l.idleTimeoutMs
    && 0 < l.remainingUses
  }

  /**
   * Nothing is allowed by default: an outcome other than a denial needs a parsed action, well-formed
   * credentials, a live lease inside its capability, fresh references, and a granted scope.
   */
  lemma NothingAllowedByDefault(q: PolicyRequest)
    ensures !EvaluatePolicy(q).Deny? ==>
              && q.action.Parsed?
              && ClaimsWellFormed(q.capability.claims) && LeaseWellFormed(q.lease)
              && GrantHolds(q.capability.claims, q.lease, q.context)
              && (forall r | r in ReferencesFor(q.action.action) :: !Stale(r, q.context))
              && RequiredScopePresent(q.action.action, q.capability.claims)
    ensures EvaluatePolicy(q).Allow? && q.phase == Commit ==> RiskOf(q.action.action) == R2 && q.approvalFailure == None
  {
  }

  /** For the actions that need no approval, those conditions are also sufficient. */
  lemma LowRiskAllowed(q: PolicyRequest)
    requires q.action.Parsed? && q.phase == Prepare && RiskOf(q.action.action) in {R0, R1}
    ensures EvaluatePolicy(q).Allow? <==>
              && ClaimsWellFormed(q.capability.claims) && LeaseWellFormed(q.lease)
              && GrantHolds(q.capability.claims, q.lease, q.context)
              && (forall r | r in ReferencesFor(q.action.action) :: !Stale(r, q.context))
              && DataClassAllowed(q.action.action, q.capability.claims)
              && RequiredScopePresent(q.action.action, q.capability.claims)
  {
    var references := ReferencesFor(q.action.action);
    assert (exists i | 0 <= i < |references| :: Stale(references[i], q.context)) <==> (exists r | r in references :: Stale(r, q.context));
  }

  // ------------------------------------------------- the outcomes, spelled out

  /** What a granted scope covers, read from the scope. */
  predicate Covers(scope: ProtocolScope, action: Action, origin: string) {
    match scope
    case Fixed(PageA11yRead) => action.ReadA11y?
    case Fixed(PageScroll) => action.Scroll?
    case Fixed(PageHighlight) => action.Highlight?
    case Fixed(NavigateSameOrigin) => action.Navigate? && action.destination == origin
    case ScreenshotRead => action.ReadScreenshot?
    case ClickReversible => action.Click?
    case FormDraft => action.Draft?
    case AllowedOrigin(other) => action.Navigate? && action.destination == other
    case ActionPrepare(kinds) => action.HighRisk? && action.kind in kinds
    case _ => false
  }

  lemma CoveredExactly(action: Action, c: Claims)
    ensures RequiredScopePresent(action, c) <==> exists x :: x in c.scopes && Covers(x, action, c.topLevelOrigin)
  {
    if x :| x in c.scopes && Covers(x, action, c.topLevelOrigin) {
      if x.ActionPrepare? {
        var i :| 0 <= i < |c.scopes| && c.scopes[i] == x;
        assert c.scopes[i].ActionPrepare? && action.kind in c.scopes[i].actionTypes;
      }
    }
    if RequiredScopePresent(action, c) {
      match action
      case Navigate(destination) =>
        if AllowedOrigin(destination) in c.scopes {
          assert Covers(AllowedOrigin(destination), action, c.topLevelOrigin);
        } else {
          assert Covers(Fixed(NavigateSameOrigin), action, c.topLevelOrigin);
        }
      case HighRisk(kind, _, _) =>
        var i :| 0 <= i < |c.scopes| && c.scopes[i].ActionPrepare? && kind in c.scopes[i].actionTypes;
        assert Covers(c.scopes[i], action, c.topLevelOrigin);
      case ReadA11y(_) => assert Covers(Fixed(PageA11yRead), action, c.topLevelOrigin);
      case ReadScreenshot => assert Covers(ScreenshotRead, action, c.topLevelOrigin);
      case Scroll(_, _) => assert Covers(Fixed(PageScroll), action, c.topLevelOrigin);
      case Highlight(_) => assert Covers(Fixed(PageHighlight), action, c.topLevelOrigin);
      case Click(_) => assert Covers(ClickReversible, action, c.topLevelOrigin);
      case Draft(_) => assert Covers(FormDraft, action, c.topLevelOrigin);
    }
  }

  /** The element belongs to the document of the request and its reference is still good. */
  predicate FreshIn(r: ElementReference, x: PolicyContext) {
    && r.issuedAt <= x.now < r.expiresAt
    && r.tabId == x.tabId && r.documentId == x.documentId && r.topLevelOrigin == x.topLevelOrigin
    && (x.currentDomEpoch.Some? ==> r.domEpoch == x.currentDomEpoch.value)
  }

  /** Every element the action touches is fresh, and a draft fills in granted classes of data only. */
  ghost predicate TouchesFresh(action: Action, c: Claims, x: PolicyContext) {
    match action
    case Highlight(target) => FreshIn(target, x)
    case Click(target) => FreshIn(target, x)
    case Draft(fields) => forall f | f in fields :: FreshIn(f.target, x) && f.dataClass in c.dataClasses
    case HighRisk(_, _, targets) => forall t | t in targets :: FreshIn(t, x)
    case _ => true
  }

  lemma TouchedExactly(action: Action, c: Claims, x: PolicyContext)
    ensures var references := ReferencesFor(action);
            TouchesFresh(action, c, x) <==>
              !(exists i | 0 <= i < |references| :: Stale(references[i], x)) && DataClassAllowed(action, c)
  {
    var references := ReferencesFor(action);
    if action.Draft? && TouchesFresh(action, c, x) {
      forall i | 0 <= i < |references| ensures !Stale(references[i], x) {
        assert action.fields[i] in action.fields;
      }
    }
    if action.Draft? && !(exists i | 0 <= i < |references| :: Stale(references[i], x)) && DataClassAllowed(action, c) {
      forall f | f in action.fields ensures FreshIn(f.target, x) && f.dataClass in c.dataClasses {
        var i :| 0 <= i < |action.fields| && action.fields[i] == f;
        assert references[i] == f.target;
        assert !Stale(references[i], x);
      }
    }
    if action.Highlight? || action.Click? {
      assert references[0] == action.target;
      if TouchesFresh(action, c, x) {
        assert forall i | 0 <= i < |references| :: references[i] == action.target;
      } else {
        assert Stale(references[0], x);
      }
    }
    if action.HighRisk? && TouchesFresh(action, c, x) {
      assert forall i | 0 <= i < |references| :: references[i] in action.targets;
    }
  }

  /** Credentials, grant, elements and scope are all in order. */
  ghost predicate InOrder(q: PolicyRequest) {
    && q.action.Parsed?
    && ClaimsWellFormed(q.capability.claims) && LeaseWellFormed(q.lease)
    && GrantHolds(q.capability.claims, q.lease, q.context)
    && TouchesFresh(q.action.action, q.capability.claims, q.context)
    && exists x :: x in q.capability.claims.scopes && Covers(x, q.action.action, q.capability.claims.topLevelOrigin)
  }

  /**
   * The outcome of every question. With everything in order, an ordinary action is allowed in the prepare
   * phase and denied in the commit phase; a high-risk one is only prepared first, and committed exactly when
   * it is not manual and its approval did not fail. With anything out of order the outcome is a denial.
   */
  lemma OutcomeExactly(q: PolicyRequest)
    ensures EvaluatePolicy(q).Allow? <==>
              InOrder(q) && if q.action.action.HighRisk? then q.phase == Commit && !q.action.action.manualOnly && q.approvalFailure == None
                            else q.phase == Prepare
    ensures EvaluatePolicy(q).AllowPrepare? <==> InOrder(q) && q.action.action.HighRisk? && q.phase == Prepare
  {
    if q.action.Parsed? {
      CoveredExactly(q.action.action, q.capability.claims);
      TouchedExactly(q.action.action, q.capability.claims, q.context);
      hide ClaimsWellFormed, LeaseWellFormed, RequiredScopePresent, Stale, DataClassAllowed, TouchesFresh, Covers;
    }
  }

  /** What a refusal of the grant says is true of it. */
  ghost predicate GrantErrorTrue(c: Claims, l: PolicyLease, x: PolicyContext, code: ErrorCode) {
    match code
    case CapabilityInvalid =>
      || !x.capabilitySignatureVerified || l.issuedAt < c.issuedAt || c.expiresAt < l.expiresAt
      || c.idleTimeoutMs < l.idleTimeoutMs || c.useLimit < l.remainingUses
    case EnterprisePolicyDenied => !x.enterpriseAllowed
    case RateLimited => !x.rateLimitAllowed
    case CapabilityContextMismatch => ContextMismatch(c, l, x)
    case CapabilityExpired => x.now < c.issuedAt || c.expiresAt <= x.now
    case LeaseRevoked => l.state == Revoked
    case LeaseExpired => l.state == Expired || l.expiresAt <= x.now || l.lastUsedAt + l.idleTimeoutMs <= x.now || l.remainingUses <= 0
    case _ => false
  }

  lemma GrantErrors(c: Claims, l: PolicyLease, x: PolicyContext)
    ensures ValidateGrant(c, l, x).Some? ==> GrantErrorTrue(c, l, x, ValidateGrant(c, l, x).value)
    // an error is reported only when nothing of a more basic kind is wrong
    ensures var error := ValidateGrant(c, l, x);
            && (!x.capabilitySignatureVerified ==> error == Some(CapabilityInvalid))
            && (error in {Some(RateLimited), Some(CapabilityContextMismatch), Some(CapabilityExpired)} ==> x.enterpriseAllowed)
            && (error in {Some(CapabilityContextMismatch), Some(CapabilityExpired)} ==> x.rateLimitAllowed)
            && (error in {Some(CapabilityExpired), Some(LeaseRevoked), Some(LeaseExpired)} ==> !ContextMismatch(c, l, x))
            && (error in {Some(LeaseRevoked), Some(LeaseExpired)} ==>
                  && x.enterpriseAllowed && x.rateLimitAllowed && c.issuedAt <= x.now < c.expiresAt
                  && c.issuedAt <= l.issuedAt && l.expiresAt <= c.expiresAt
                  && l.idleTimeoutMs <= c.idleTimeoutMs && l.remainingUses <= c.useLimit)
            && (error == Some(LeaseExpired) ==> l.state != Revoked)
  {
    hide ContextMismatch;
  }

  /** A denial names the forbidden access that was attempted, the approval's own failure, or a condition that really failed. */
  lemma DenialTrue(q: PolicyRequest)
    requires EvaluatePolicy(q).Deny?
    ensures var code, c, x := EvaluatePolicy(q).code, q.capability.claims, q.context;
            match q.action
            case Prohibited(attempted) => code == attempted
            case Malformed => code == UnknownAction
            case Parsed(action) =>
              || (code == CapabilityInvalid && (!ClaimsWellFormed(c) || !LeaseWellFormed(q.lease)))
              || GrantErrorTrue(c, q.lease, x, code)
              || (code == StaleElementReference && exists r :: r in ReferencesFor(action) && !FreshIn(r, x))
              || (code == CapabilityScopeDenied
                  && (!DataClassAllowed(action, c) || !(exists y :: y in c.scopes && Covers(y, action, c.topLevelOrigin))))
              || (code == RiskNotSupported && action.HighRisk? && action.manualOnly && q.phase == Commit)
              || (code == PrepareRequired && !action.HighRisk? && q.phase == Commit)
              || (q.approvalFailure == Some(code) && action.HighRisk? && !action.manualOnly && q.phase == Commit)
  {
    if q.action.Parsed? {
      CoveredExactly(q.action.action, q.capability.claims);
      GrantErrors(q.capability.claims, q.lease, q.context);
      var references := ReferencesFor(q.action.action);
      hide ClaimsWellFormed, LeaseWellFormed, RequiredScopePresent, DataClassAllowed, Covers, ValidateGrant, ReferencesFor, GrantErrorTrue;
      if i :| 0 <= i < |references| && Stale(references[i], q.context) {
        assert references[i] in references && !FreshIn(references[i], q.context);
      }
    }
  }

  /** The risk a decision reports: reading and showing is R0, reversible input R1, the rest R2, or R3 if manual. */
  lemma RiskReported(q: PolicyRequest)
    requires !EvaluatePolicy(q).Deny?
    ensures var risk := if EvaluatePolicy(q).Allow? then EvaluatePolicy(q).risk else EvaluatePolicy(q).prepareRisk;
            q.action.Parsed? &&
            match q.action.action
            case HighRisk(_, manualOnly, _) => risk == if manualOnly then R3 else R2
            case Click(_) => risk == R1
            case Draft(_) => risk == R1
            case Navigate(_) => risk == R1
            case _ => risk == R0
  {
    hide ClaimsWellFormed, LeaseWellFormed, ValidateGrant;
  }

  // What a capability, a lease and the caller each say about who may act where.
  datatype Binding = Binding(clientId: string, taskId: string, browserProfileInstance: string, tabId: nat, documentId: string, origin: string)

  function ClaimedBinding(c: Claims): Binding {
    Binding(c.clientId, c.taskId, c.browserProfileInstance, c.tabId, c.documentId, c.topLevelOrigin)
  }

  function LeasedBinding(l: PolicyLease): Binding {
    Binding(l.clientId, l.taskId, l.browserProfileInstance, l.tabId, l.documentId, l.topLevelOrigin)
  }

  function CallersBinding(x: PolicyContext): Binding {
    Binding(x.clientId, x.taskId, x.browserProfileInstance, x.tabId, x.documentId, x.topLevelOrigin)
  }

  /** A grant holds for one client, task, browser, tab, document and origin only, and for the capability the lease was cut from. */
  lemma BoundTogether(c: Claims, l: PolicyLease, x: PolicyContext)
    ensures !ContextMismatch(c, l, x) <==>
              && ClaimedBinding(c) == LeasedBinding(l) == CallersBinding(x)
              && (c.audience, c.policyVersion, c.capabilityId) == (x.audience, x.policyVersion, l.capabilityId)
  {
  }

  /** Which claims a well-formed capability may carry instead: lifetimes, uses and names, one by one. */
  lemma ClaimsFieldwise(c: Claims, name: string, from: int, to: int, span: int, uses: int)
    requires ClaimsWellFormed(c)
    ensures ClaimsWellFormed(c.(issuedAt := from, expiresAt := to)) <==> from >= 0 && 1 <= to - from && to - from <= 10 * 60 * 1000
    ensures ClaimsWellFormed(c.(idleTimeoutMs := span)) <==> 1 <= span && span <= 2 * 60 * 1000
    ensures ClaimsWellFormed(c.(useLimit := uses)) <==> 1 <= uses && uses <= 10_000
    ensures ClaimsWellFormed(c.(clientId := name)) <==> Identifier(name)
    ensures ClaimsWellFormed(c.(taskId := name)) <==> Identifier(name)
    ensures ClaimsWellFormed(c.(browserProfileInstance := name)) <==> Identifier(name)
    ensures ClaimsWellFormed(c.(documentId := name)) <==> Identifier(name)
    ensures ClaimsWellFormed(c.(audience := name)) <==> Identifier(name)
    ensures ClaimsWellFormed(c.(policyVersion := name)) <==> Identifier(name)
  {
    hide Identifier, DistinctScopes, ScopeWellFormed;
  }

  /** Which lists it may carry instead: one more scope, data class or destination, or just one. */
  lemma ClaimsListwise(c: Claims, scope: ProtocolScope, dataClass: string, name: string)
    requires ClaimsWellFormed(c)
    ensures ClaimsWellFormed(c.(scopes := c.scopes + [scope])) <==> |c.scopes| < 32 && scope !in c.scopes && ClaimsWellFormed(c.(scopes := [scope]))
    ensures ClaimsWellFormed(c.(scopes := [scope])) <==>
              match scope
              case ModelEgress(provider, bytes) => Identifier(provider) && 1 <= bytes && bytes <= 10_000_000
              case ActionPrepare(types) => types != [] && |types| <= 32 && forall t | t in types :: Identifier(t)
              case _ => true
    ensures !ClaimsWellFormed(c.(scopes := []))
    ensures ClaimsWellFormed(c.(dataClasses := c.dataClasses + [dataClass])) <==> |c.dataClasses| < 6
    ensures ClaimsWellFormed(c.(egressDestinations := c.egressDestinations + [name])) <==> |c.egressDestinations| < 16 && Identifier(name)
  {
    hide Identifier;
    var more, alone, sent := c.scopes + [scope], [scope], c.egressDestinations + [name];
    assert more[|c.scopes|] == scope && alone[0] == scope && sent[|c.egressDestinations|] == name;
    if scope in c.scopes {
      var k :| 0 <= k < |c.scopes| && c.scopes[k] == scope;
      assert more[k] == more[|c.scopes|];
    }
    forall k | 0 <= k < |c.scopes| ensures more[k] == c.scopes[k] && ScopeWellFormed(more[k]) {}
    forall k | 0 <= k < |c.egressDestinations| ensures sent[k] == c.egressDestinations[k] {}
  }

  /** The same of a lease: its times, its uses, its names, and that a revoked one tells when. */
  lemma LeaseFieldwise(l: PolicyLease, name: string, from: int, used: int, to: int, span: int, uses: int, at: Option<int>)
    requires LeaseWellFormed(l)
    ensures LeaseWellFormed(l.(issuedAt := from, lastUsedAt := used, expiresAt := to)) <==> 0 <= from && from <= used && used <= to && from != to
    ensures LeaseWellFormed(l.(idleTimeoutMs := span)) <==> 1 <= span && span <= 2 * 60 * 1000
    ensures LeaseWellFormed(l.(remainingUses := uses)) <==> 0 <= uses && uses < 10_001
    ensures LeaseWellFormed(l.(state := Revoked, revokedAt := at)) <==> at != None
    ensures LeaseWellFormed(l.(state := Active, revokedAt := at)) && LeaseWellFormed(l.(state := Expired, revokedAt := at))
    ensures LeaseWellFormed(l.(clientId := name)) <==> Identifier(name)
    ensures LeaseWellFormed(l.(taskId := name)) <==> Identifier(name)
    ensures LeaseWellFormed(l.(browserProfileInstance := name)) <==> Identifier(name)
    ensures LeaseWellFormed(l.(documentId := name)) <==> Identifier(name)
  {
    hide Identifier;
  }

  /** The characters and lengths of the protocol's identifiers, by character code. */
  lemma IdentifierExactly(text: string)
    ensures Identifier(text) <==>
              && 1 <= |text| <= 128
              && forall i | 0 <= i < |text| ::
                   var code := text[i] as int;
                   48 <= code <= 57 || 65 <= code <= 90 || 97 <= code <= 122 || (i > 0 && code in {45, 46, 58, 95})
  {
  }
}
