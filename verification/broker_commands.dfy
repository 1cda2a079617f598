/** What admits a command, what it costs, and the life of a returned result. */
module BrokerCommands {
  import opened Wrappers
  import opened Policy
  import opened Broker
  import opened BrokerInvariants
  import opened BrokerLedger
  import opened BrokerSteps
  import opened BrokerRuns
  import opened BrokerExpiry
  import opened BrokerSessions
  import opened BrokerProperties
  import opened BrokerRates
  import opened BrokerLaws

  // --------------------------------------------------------------- commands

  /** The kind of a call, the scopes it needs and the parameters it may have. */
  ghost predicate CallFits(call: CommandCall, kind: Kind, lease: Lease) {
    match call
    case Snapshot(n) => kind == SnapshotKind && 1 <= n <= 500 && PageA11yRead in lease.scopes && DataEgressModel in lease.scopes
    case HighlightElement => kind == HighlightKind && PageHighlight in lease.scopes
    case ScrollPage(y) => kind == ScrollKind && -2_000 <= y <= 2_000 && PageScroll in lease.scopes
    case NavigateTo(destination) => kind == NavigateKind && NavigateSameOrigin in lease.scopes && destination == lease.origin
  }

  /** The agent's own unrevoked lease, which covers the call. */
  ghost predicate MayCall(m: Broker, ctx: nat, l: nat, call: CommandCall, kind: Kind)
    requires IdsInHeap(m) && ctx < |m.contexts|
  {
    && m.contexts[ctx].role == AgentRole
    && l in m.leaseIds && m.leases[l].session == ctx && m.leases[l].revokedAt == None
    && CallFits(call, kind, m.leases[l])
  }

  /** The browser is there and every limit of the lease leaves room. */
  ghost predicate RoomToRun(m: Broker, l: nat, now: int)
    requires l < |m.leases|
  {
    var lease := m.leases[l];
    && lease.browserInstanceId in m.browsers
    && lease.policy.remainingUses > 0 && lease.inFlight < 2
    && (lease.windowStartedAt + 60_000 <= now || lease.commandsInWindow < 30)
  }

  /** A lease that was charged for one more command. */
  ghost predicate ChargedLease(before: Lease, after: Lease, now: int) {
    var over := before.windowStartedAt + 60_000 <= now;
    after == before.(
      inFlight := before.inFlight + 1,
      policy := before.policy.(remainingUses := before.policy.remainingUses - 1, lastUsedAt := now),
      lastUsedAt := now,
      windowStartedAt := if over then now else before.windowStartedAt,
      commandsInWindow := if over then 1 else before.commandsInWindow + 1)
  }

  /** A lease that a refused command leaves: its window may have rolled over. */
  ghost predicate RolledAtMost(before: Lease, after: Lease, now: int) {
    || after == before
    || (before.windowStartedAt + 60_000 <= now && after == before.(windowStartedAt := now, commandsInWindow := 0))
  }

  /** A lease that ended now for this reason, other than by running out. */
  ghost predicate EndedFor(before: Lease, after: Lease, reason: string, now: int) {
    after == before.(revokedAt := Some(now), revokeReason := Some(reason),
                     policy := before.policy.(state := LeaseState.Revoked, revokedAt := Some(now)))
  }

  /** Both engines let through exactly the calls on an unrevoked lease with a use left. */
  lemma CallRefusalExactly(m: Broker, now: int, ctx: nat, l: nat, call: CommandCall)
    requires Inv(m, now) && Settled(m, now) && IdsInHeap(m) && ctx < |m.contexts| && m.contexts[ctx].role == AgentRole
    ensures CommandRefusal(m, ctx, l, call, now) == None <==> MayCall(m, ctx, l, call, KindOf(call))
    ensures CommandRefusal(m, ctx, l, call, now) == Some(LeaseNotActive) ==> l < |m.leases| && CheckLease(m, l, now) == m
    ensures MayCall(m, ctx, l, call, KindOf(call)) ==>
              if call.HighlightElement? || m.leases[l].policy.remainingUses > 0 then AuthorizeCommand(m, m.leases[l], call, now) == None
              else AuthorizeCommand(m, m.leases[l], call, now) == Some(Code.PolicyDenied(RateLimited))
  {
    if l in m.leaseIds {
      assert CheckedLease(m.leases[l], now) == m.leases[l];
      UsedUpIsHeld(m, now, l);
      LeaseInStep(m, now, l);
      hide Inv, Settled, InStep, LeaseTimes, EvaluatePolicy, Within, LeaseMoves;
      assert NeededScopes(call)[0] in NeededScopes(call);
      if call.Snapshot? {
        assert NeededScopes(call)[1] in NeededScopes(call);
      }
      if ScopesGranted(m.leases[l], call) && !call.HighlightElement? {
        EngineAgrees(m, m.leases[l], call, now, now);
        if m.leases[l].policy.remainingUses == 0 {
          UsedUpAnswer(m, m.leases[l], call, now);
        }
      }
    }
  }

  /** Without uses left the engine answers that the budget is gone, whatever else is in order. */
  lemma UsedUpAnswer(s: Broker, lease: Lease, call: CommandCall, now: int)
    requires InStep(lease, s.secret) && LeaseTimes(lease, now) && lease.policy.remainingUses == 0 && !call.HighlightElement?
    ensures AuthorizeCommand(s, lease, call, now) == Some(Code.PolicyDenied(RateLimited))
  {
    hide ClaimsWellFormed, LeaseWellFormed, LeaseTimes, ContextMismatch;
    GrantHoldsExactly(s, lease, ActionFor(call).value, now, now);
  }

  lemma LeaseInStep(s: Broker, now: int, l: nat)
    requires Inv(s, now) && l < |s.leases|
    ensures InStep(s.leases[l], s.secret) && LeaseTimes(s.leases[l], now)
  {
  }

  /** What a command call makes of the state it meets. */
  ghost predicate CommandLaw(m: Broker, t: Broker, now: int, ctx: nat, l: nat, call: CommandCall, kind: Kind)
    requires IdsInHeap(m) && ctx < |m.contexts|
  {
    if !MayCall(m, ctx, l, call, kind) then t == m
    else
      && |t.leases| == |m.leases|
      && (forall k | 0 <= k < |m.leases| && k != l :: t.leases[k] == m.leases[k])
      && if RoomToRun(m, l, now) then
           ChargedLease(m.leases[l], t.leases[l], now) && t.requests == m.requests
           && t.commands == m.commands + [Command(l, kind, now, AwaitBrowser)]
         else
           t.commands == m.commands
           && if m.leases[l].browserInstanceId in m.browsers then RolledAtMost(m.leases[l], t.leases[l], now) && t.requests == m.requests
              else EndedFor(m.leases[l], t.leases[l], "BROWSER_DISCONNECTED", now)
                   && RequestEnded(m, t, m.leases[l].requestId, RequestRevoked, now)
  }

  /** The request ended now if it is recorded, and no other request changed. */
  ghost predicate RequestEnded(m: Broker, t: Broker, r: nat, status: Status, now: int) {
    && |t.requests| == |m.requests|
    && (forall q | 0 <= q < |m.requests| :: t.requests[q] ==
          if q == r && r in m.requestIds then m.requests[q].(status := status, terminalAt := Some(now)) else m.requests[q])
  }

  /** What `revokeLease` does to an unrevoked lease, for a reason other than running out. */
  lemma RevokeOutcome(m: Broker, l: nat, reason: string, now: int)
    requires Structured(m) && l < |m.leases| && m.leases[l].revokedAt == None
    ensures var t := RevokeLease(m, l, reason, now);
            && |t.leases| == |m.leases| && t.commands == m.commands && t.leaseIds == m.leaseIds && t.requestIds == m.requestIds
            && (forall k | 0 <= k < |m.leases| && k != l :: t.leases[k] == m.leases[k])
            && (reason != "LEASE_EXPIRED" ==>
                  EndedFor(m.leases[l], t.leases[l], reason, now) && RequestEnded(m, t, m.leases[l].requestId, RequestRevoked, now))
            && (reason == "LEASE_EXPIRED" ==>
                  t.leases[l] == m.leases[l].(revokedAt := Some(now), revokeReason := Some(reason), policy := m.leases[l].policy.(state := Expired))
                  && RequestEnded(m, t, m.leases[l].requestId, RequestExpired, now))
  {
    hide Increasing;
  }

  lemma AdmitOutcome(m: Broker, l: nat, kind: Kind, now: int)
    requires l < |m.leases|
    ensures var t := AdmitCommand(m, l, kind, now).0;
            && |t.leases| == |m.leases| && t.requests == m.requests
            && (forall k | 0 <= k < |m.leases| && k != l :: t.leases[k] == m.leases[k])
            && (if RoomToRun(m.(browsers := map[m.leases[l].browserInstanceId := 0]), l, now)
                then ChargedLease(m.leases[l], t.leases[l], now) && t.commands == m.commands + [Command(l, kind, now, AwaitBrowser)]
                else RolledAtMost(m.leases[l], t.leases[l], now) && t.commands == m.commands)
  {
  }

  lemma CallOutcome(m: Broker, now: int, ctx: nat, l: nat, call: CommandCall)
    requires Structured(m) && l < |m.leases| && m.leases[l].revokedAt == None && 0 <= m.leases[l].policy.remainingUses
    requires AuthorizeCommand(m, m.leases[l], call, now) == None <==> call.HighlightElement? || m.leases[l].policy.remainingUses > 0
    requires ctx < |m.contexts| && IdsInHeap(m) && MayCall(m, ctx, l, call, KindOf(call))
    ensures CommandLaw(m, ExecuteWithLease(m, l, call, now).0, now, ctx, l, call, KindOf(call))
  {
    hide AuthorizeCommand, RevokeLease, AdmitCommand, CallFits, Structured, ChargedLease, EndedFor, RequestEnded;
    RevokeOutcome(m, l, "BROWSER_DISCONNECTED", now);
    AdmitOutcome(m, l, KindOf(call), now);
  }

  lemma CommandOutcome(m: Broker, now: int, ctx: nat, l: nat, call: CommandCall)
    requires Inv(m, now) && Settled(m, now) && IdsInHeap(m) && ctx < |m.contexts| && m.contexts[ctx].role == AgentRole
    ensures CommandLaw(m, BeginCommand(m, ctx, l, call, now).0, now, ctx, l, call, KindOf(call))
  {
    CallRefusalExactly(m, now, ctx, l, call);
    InvStructured(m, now);
    hide Settled, CommandRefusal, AuthorizeCommand, CallFits, ExecuteWithLease, CheckLease, Inv, Structured, KindOf;
    if MayCall(m, ctx, l, call, KindOf(call)) {
      UsedUpIsHeld(m, now, l);
      CallOutcome(m, now, ctx, l, call);
    }
  }

  /**
   * A command is admitted exactly when it is a valid call of the agent on its own unrevoked lease that grants
   * its scopes (and, for a navigation, its origin), the browser is connected, and uses, concurrency and the
   * window leave room. Only then is the lease charged, for one use; a missing browser ends the lease instead,
   * and any other refusal leaves everything but a window that is over.
   */
  lemma CommandExactly(x: Execution, i: nat, ctx: nat, l: nat, call: CommandCall) returns (kind: Kind)
    requires Behaves(x) && i < |x.events| && x.events[i].event == EExecute(ctx, l, call)
    requires ctx < |x.states[i].contexts|
    ensures kind == match call case Snapshot(_) => SnapshotKind case HighlightElement => HighlightKind
                               case ScrollPage(_) => ScrollKind case NavigateTo(_) => NavigateKind
    ensures IdsInHeap(x.states[i])
    ensures var m, t := Maintain(x.states[i], x.events[i].now), x.states[i + 1];
            if x.states[i].contexts[ctx].role != AgentRole then t == x.states[i]
            else CommandLaw(m, t, x.events[i].now, ctx, l, call, kind)
  {
    kind := KindOf(call);
    hide Inv, Handle, Resume, Settled, Maintain, CommandLaw, IdsInHeap;
    StepMeets(x, i);
    if x.states[i].contexts[ctx].role == AgentRole {
      var m, now := Maintain(x.states[i], x.events[i].now), x.events[i].now;
      HandledCall(m, ctx, l, call, now);
      CommandOutcome(m, now, ctx, l, call);
    } else {
      assert StepsTo(x, i);
    }
  }

  lemma HandledCall(m: Broker, ctx: nat, l: nat, call: CommandCall, now: int)
    requires IdsInHeap(m) && Enabled(m, EExecute(ctx, l, call))
    ensures ctx < |m.contexts| && Handle(m, EExecute(ctx, l, call), now) == BeginCommand(m, ctx, l, call, now).0
  {
  }

  // --------------------------------------------------- replies and audits

  /** The lease can still serve at this time; a suspended command holds on to it. */
  ghost predicate StillServes(lease: Lease, now: int) {
    lease.revokedAt == None && now < lease.expiresAt && now < lease.lastUsedAt + 120_000
  }

  /** What a browser answer costs, if it may be passed on: snapshots pay for each byte and have two limits. */
  function Cost(kind: Kind, answer: BrowserAnswer, egress: int): Option<nat> {
    match answer
    case BrowserError => None
    case BrowserResult(bytes) =>
      if kind != SnapshotKind then Some(0)
      else if bytes.Some? && bytes.value <= 256_000 && bytes.value <= egress then bytes
      else None
  }

  /** What the browser's answer makes of the command and its lease. */
  ghost predicate ReplyLaw(s: Broker, t: Broker, c: nat, answer: BrowserAnswer, now: int)
    requires c < |s.commands| && s.commands[c].lease < |s.leases|
  {
    var l := s.commands[c].lease;
    var lease, cost := s.leases[l], Cost(s.commands[c].kind, answer, s.leases[l].remainingEgress);
    && |t.leases| == |s.leases| && |t.commands| == |s.commands|
    && (forall k | 0 <= k < |s.leases| && k != l :: t.leases[k] == s.leases[k])
    && (forall k | 0 <= k < |s.commands| && k != c :: t.commands[k] == s.commands[k])
    && if StillServes(lease, now) && cost.Some? then
         && t.commands[c] == s.commands[c].(stage := AwaitAudit(cost.value, now))
         && t.leases[l] == lease.(remainingEgress := lease.remainingEgress - cost.value)
         && t.requests == s.requests
       else
         && t.commands[c] == s.commands[c].(stage := AwaitDenial)
         && if answer.BrowserResult? && lease.revokedAt == None && !StillServes(lease, now) then
              && t.leases[l] == lease.(revokedAt := Some(now), revokeReason := Some("LEASE_EXPIRED"), policy := lease.policy.(state := Expired))
              && RequestEnded(s, t, lease.requestId, RequestExpired, now)
            else t.leases[l] == lease && t.requests == s.requests
  }

  lemma ReplyOutcome(s: Broker, c: nat, answer: BrowserAnswer, now: int)
    requires Structured(s) && c < |s.commands| && s.commands[c].lease < |s.leases| && s.leases[s.commands[c].lease].inFlight > 0
    ensures ReplyLaw(s, BrowserReplied(s, c, answer, now), c, answer, now)
  {
    var l := s.commands[c].lease;
    hide Structured, RevokeLease, RequestEnded;
    if s.leases[l].revokedAt == None {
      RevokeOutcome(s, l, "LEASE_EXPIRED", now);
      EndedAround(s, RevokeLease(s, l, "LEASE_EXPIRED", now), c, s.leases[l].requestId, RequestExpired, now);
    }
  }

  /** Moving a command to another stage ends no request. */
  lemma EndedAround(s: Broker, t: Broker, c: nat, r: nat, status: Status, now: int)
    requires RequestEnded(s, t, r, status, now) && c < |t.commands|
    ensures forall stage :: RequestEnded(s, PutStage(t, c, stage), r, status, now)
  {
  }

  /** What the end of a command makes of its lease: one less in flight, and an exhausted lease ends with the last. */
  ghost predicate FinishLaw(s: Broker, t: Broker, l: nat, now: int)
    requires l < |s.leases|
  {
    var lease := s.leases[l].(inFlight := s.leases[l].inFlight - 1);
    && |t.leases| == |s.leases| && (forall k | 0 <= k < |s.leases| && k != l :: t.leases[k] == s.leases[k])
    && if lease.revokedAt == None && lease.policy.remainingUses <= 0 && lease.inFlight == 0 then
         EndedFor(lease, t.leases[l], "USE_LIMIT_EXHAUSTED", now) && RequestEnded(s, t, lease.requestId, RequestRevoked, now)
       else t.leases[l] == lease && t.requests == s.requests
  }

  lemma FinishOutcome(s: Broker, c: nat, stage: Stage, now: int)
    requires Structured(s) && c < |s.commands| && s.commands[c].lease < |s.leases|
    ensures var t := Finish(PutStage(s, c, stage), s.commands[c].lease, now);
            FinishLaw(s, t, s.commands[c].lease, now) && t.commands == s.commands[c := s.commands[c].(stage := stage)]
  {
    var l := s.commands[c].lease;
    var counted := PutLease(PutStage(s, c, stage), l, s.leases[l].(inFlight := s.leases[l].inFlight - 1));
    assert Structured(counted);
    hide Structured, RevokeLease;
    if s.leases[l].revokedAt == None {
      RevokeOutcome(counted, l, "USE_LIMIT_EXHAUSTED", now);
    } else {
      RevokedStays(counted, l, "USE_LIMIT_EXHAUSTED", now);
    }
  }

  lemma RevokedStays(s: Broker, l: nat, reason: string, now: int)
    requires l < |s.leases| && s.leases[l].revokedAt.Some?
    ensures RevokeLease(s, l, reason, now) == s
  {
  }

  lemma SuspendedIsCounted(s: Broker, now: int, c: nat)
    requires Inv(s, now) && c < |s.commands| && SuspendedStage(s.commands[c].stage)
    ensures s.commands[c].lease < |s.leases| && s.leases[s.commands[c].lease].inFlight > 0
  {
    var l := s.commands[c].lease;
    assert Balanced(s, l);
    TallyReplace(s.commands, c, s.commands[c], l, SuspendedCommands);
  }

  /**
   * A browser answer is passed on to its success audit exactly when the lease still serves and the answer can
   * be paid for: a snapshot costs its bytes, at most 256 000 and at most the egress left, any other result
   * costs nothing. The lease pays exactly that; every other answer goes to the denial audit.
   */
  lemma ReplyExactly(x: Execution, i: nat, c: nat, answer: BrowserAnswer)
    requires Behaves(x) && i < |x.events| && x.events[i].event == EBrowserReply(c, answer)
    requires c < |x.states[i].commands| && x.states[i].commands[c].stage == AwaitBrowser
    ensures x.states[i].commands[c].lease < |x.states[i].leases|
    ensures ReplyLaw(x.states[i], x.states[i + 1], c, answer, x.events[i].now)
  {
    hide Inv, Handle, BrowserReplied, Settled, ReplyLaw;
    StepMeets(x, i);
    InvStructured(x.states[i], x.events[i].now);
    SuspendedIsCounted(x.states[i], x.events[i].now, c);
    ReplyOutcome(x.states[i], c, answer, x.events[i].now);
  }

  /** What the success audit of a command makes of it: the result returns, or its bytes are refunded. */
  ghost predicate SuccessLaw(s: Broker, t: Broker, c: nat, written: bool, now: int)
    requires c < |s.commands| && s.commands[c].lease < |s.leases| && s.commands[c].stage.AwaitAudit?
  {
    var l, stage := s.commands[c].lease, s.commands[c].stage;
    if written then
      t.commands == s.commands[c := s.commands[c].(stage := Returned(stage.reserved, stage.checkedAt))] && FinishLaw(s, t, l, now)
    else
      && t.commands == s.commands[c := s.commands[c].(stage := AwaitDenial)] && t.requests == s.requests
      && t.leases == s.leases[l := s.leases[l].(remainingEgress := s.leases[l].remainingEgress + stage.reserved)]
  }

  /** A command returns exactly when its success audit was written; if it was not, the lease gets its bytes back. */
  lemma SuccessExactly(x: Execution, i: nat, c: nat, written: bool)
    requires Behaves(x) && i < |x.events| && x.events[i].event == ESuccessAudit(c, written)
    requires c < |x.states[i].commands| && x.states[i].commands[c].stage.AwaitAudit?
    ensures x.states[i].commands[c].lease < |x.states[i].leases|
    ensures SuccessLaw(x.states[i], x.states[i + 1], c, written, x.events[i].now)
  {
    hide Inv, Handle, Finish, Settled, FinishLaw;
    StepMeets(x, i);
    var s := x.states[i];
    InvStructured(s, x.events[i].now);
    SuspendedIsCounted(s, x.events[i].now, c);
    FinishOutcome(s, c, Returned(s.commands[c].stage.reserved, s.commands[c].stage.checkedAt), x.events[i].now);
  }

  /** After its denial audit a command has failed, whether or not the audit was written. */
  lemma DenialExactly(x: Execution, i: nat, c: nat)
    requires Behaves(x) && i < |x.events| && x.events[i].event == EDenialAudit(c)
    requires c < |x.states[i].commands| && x.states[i].commands[c].stage == AwaitDenial
    ensures x.states[i].commands[c].lease < |x.states[i].leases|
    ensures var s, t := x.states[i], x.states[i + 1];
            t.commands == s.commands[c := s.commands[c].(stage := Failed)] && FinishLaw(s, t, s.commands[c].lease, x.events[i].now)
  {
    hide Inv, Handle, Finish, Settled, FinishLaw;
    StepMeets(x, i);
    InvStructured(x.states[i], x.events[i].now);
    SuspendedIsCounted(x.states[i], x.events[i].now, c);
    FinishOutcome(x.states[i], c, Failed, x.events[i].now);
  }

  // ------------------------------------------------------ a command's life

  /** Event `k` is the call that created command `c`. */
  ghost predicate Called(x: Execution, k: nat, c: nat)
    requires Behaves(x)
  {
    && k < |x.events| && x.events[k].event.EExecute?
    && |x.states[k].commands| == c && |x.states[k + 1].commands| == c + 1
  }

  /** The command is the call's, on the call's lease. */
  ghost predicate IsCallOf(command: Command, e: Event) {
    && e.EExecute? && command.lease == e.l
    && match e.call
       case Snapshot(_) => command.kind == SnapshotKind
       case HighlightElement => command.kind == HighlightKind
       case ScrollPage(_) => command.kind == ScrollKind
       case NavigateTo(_) => command.kind == NavigateKind
  }

  /** Only its own reply and audits move a command, and new commands come from calls. */
  lemma CommandsMove(x: Execution, i: nat, c: nat)
    requires Behaves(x) && i < |x.events| && c < |x.states[i + 1].commands|
    ensures var s, t, e := x.states[i], x.states[i + 1], x.events[i].event;
            if c < |s.commands| then
              && t.commands[c].lease == s.commands[c].lease && t.commands[c].kind == s.commands[c].kind
              && (t.commands[c].stage != s.commands[c].stage ==>
                    || (e.EBrowserReply? && e.c == c && s.commands[c].stage == AwaitBrowser)
                    || (e.ESuccessAudit? && e.c == c && s.commands[c].stage.AwaitAudit?)
                    || (e.EDenialAudit? && e.c == c && s.commands[c].stage == AwaitDenial))
            else Called(x, i, c) && IsCallOf(t.commands[c], e) && t.commands[c].stage == AwaitBrowser
  {
    hide Inv, Handle, Resume, Settled, Maintain, Enabled, AdmitsNow, CreatesNow, Called;
    StepMeets(x, i);
    var s, e, now := x.states[i], x.events[i].event, x.events[i].now;
    assert StepsTo(x, i);
    RunKeepsInv(x, i);
    StepLogs(s, e, Clock(x, i), now);
    if Enabled(s, e) {
      if IsCall(e) {
        if e.EExecute? {
          CallMoves(x, i, c);
        } else {
          CallsKeepCommands(Met(s, e, now), e, now);
        }
      } else {
        ResumeMoves(Met(s, e, now), e, now, c);
      }
    }
    hide Step;
    KindsStay(s, x.states[i + 1], now, c);
  }

  lemma KindsStay(s: Broker, t: Broker, now: int, c: nat)
    requires AdmitsNow(s, t, now)
    ensures c < |s.commands| && c < |t.commands| ==>
              t.commands[c].lease == s.commands[c].lease && t.commands[c].kind == s.commands[c].kind
  {
  }

  lemma CallMoves(x: Execution, i: nat, c: nat)
    requires Behaves(x) && i < |x.events| && c < |x.states[i + 1].commands|
    requires x.events[i].event.EExecute? && Enabled(x.states[i], x.events[i].event)
    ensures var s, t := x.states[i], x.states[i + 1];
            if c < |s.commands| then t.commands[c] == s.commands[c]
            else Called(x, i, c) && IsCallOf(t.commands[c], x.events[i].event) && t.commands[c].stage == AwaitBrowser
  {
    var e := x.events[i].event;
    hide Inv, Settled, MayCall, RoomToRun, Step;
    var kind := CommandExactly(x, i, e.ctx, e.l, e.call);
    assert Maintain(x.states[i], x.events[i].now).commands == x.states[i].commands;
  }

  lemma CallsKeepCommands(m: Broker, e: Event, now: int)
    requires IdsInHeap(m) && IsCall(e) && Enabled(m, e) && !e.EExecute?
    ensures Handle(m, e, now).commands == m.commands
  {
    hide ExpireRecords, PendingRefusal, RequestRoom, LeaseRoom, IssueCapability, GrantClaims, ReserveRate;
    if e.ERequest? {
      RateKeepsCommands(ExpireRecords(m, now), e.ctx, now);
    }
  }

  lemma RateKeepsCommands(s: Broker, ctx: nat, now: int)
    requires ctx < |s.contexts|
    ensures ReserveRate(s, ctx, now).0.commands == s.commands
  {
  }

  lemma ResumeMoves(s: Broker, e: Event, now: int, c: nat)
    requires IdsInHeap(s) && !IsCall(e) && Enabled(s, e)
    ensures var t := Resume(s, e, now);
            && |t.commands| == |s.commands|
            && (c < |s.commands| && t.commands[c].stage != s.commands[c].stage ==>
                  || (e.EBrowserReply? && e.c == c && s.commands[c].stage == AwaitBrowser)
                  || (e.ESuccessAudit? && e.c == c && s.commands[c].stage.AwaitAudit?)
                  || (e.EDenialAudit? && e.c == c && s.commands[c].stage == AwaitDenial))
  {
    hide LeaseActive, EgressRefusal, ExpiryReason, RevokedLease, EndedRequest, RevokedStatus, Within;
  }

  /** The call that a command of a run comes from. */
  lemma {:induction false} CommandBegins(x: Execution, i: nat, c: nat) returns (k: nat)
    requires Behaves(x) && i < |x.states| && c < |x.states[i].commands|
    ensures k < i && Called(x, k, c) && IsCallOf(x.states[i].commands[c], x.events[k].event)
    decreases i
  {
    hide Step, Called;
    assert i > 0 by {
      assert Start(x.secret).commands == [];
    }
    CommandsMove(x, i - 1, c);
    if c < |x.states[i - 1].commands| {
      k := CommandBegins(x, i - 1, c);
    } else {
      k := i - 1;
    }
  }

  /** The answer that a result waiting for its success audit comes from. */
  ghost predicate PassedOn(x: Execution, j: nat, c: nat, bytes: nat, at: int)
    requires Behaves(x)
  {
    && j < |x.events| && x.events[j].event.EBrowserReply? && x.events[j].event.c == c && x.events[j].now == at
    && c < |x.states[j].commands| && x.states[j].commands[c].stage == AwaitBrowser
    && x.states[j].commands[c].lease < |x.states[j].leases|
    && var command := x.states[j].commands[c];
       var lease := x.states[j].leases[command.lease];
       && StillServes(lease, at) && Cost(command.kind, x.events[j].event.answer, lease.remainingEgress) == Some(bytes)
       && command.lease < |x.states[j + 1].leases|
       && x.states[j + 1].leases[command.lease].remainingEgress == lease.remainingEgress - bytes
  }

  lemma {:induction false} PassedBegins(x: Execution, i: nat, c: nat) returns (j: nat)
    requires Behaves(x) && i < |x.states| && c < |x.states[i].commands| && x.states[i].commands[c].stage.AwaitAudit?
    ensures j < i && PassedOn(x, j, c, x.states[i].commands[c].stage.reserved, x.states[i].commands[c].stage.checkedAt)
    decreases i
  {
    hide Step, Called, PassedOn;
    assert i > 0 by {
      assert Start(x.secret).commands == [];
    }
    CommandsMove(x, i - 1, c);
    var s, t, e := x.states[i - 1], x.states[i], x.events[i - 1].event;
    if t.commands[c].stage == s.commands[c].stage {
      j := PassedBegins(x, i - 1, c);
    } else {
      StageMoves(x, i - 1, c);
      j := i - 1;
    }
  }

  /** What a change of stage leads to. */
  lemma StageMoves(x: Execution, i: nat, c: nat)
    requires Behaves(x) && i < |x.events| && c < |x.states[i].commands| && c < |x.states[i + 1].commands|
    requires x.states[i + 1].commands[c].stage != x.states[i].commands[c].stage
    ensures var before, after := x.states[i].commands[c].stage, x.states[i + 1].commands[c].stage;
            && (after.AwaitAudit? ==> PassedOn(x, i, c, after.reserved, after.checkedAt))
            && (after.Returned? ==> before == AwaitAudit(after.bytes, after.releasedAt) && x.events[i].event == ESuccessAudit(c, true))
            && after != AwaitBrowser
  {
    hide Step, Called, Cost, StillServes, FinishLaw, RequestEnded;
    CommandsMove(x, i, c);
    var e := x.events[i].event;
    if e.EBrowserReply? {
      ReplyExactly(x, i, c, e.answer);
    } else if e.ESuccessAudit? {
      SuccessExactly(x, i, c, e.written);
    } else {
      DenialExactly(x, i, c);
    }
  }

  lemma {:induction false} ReturnBegins(x: Execution, i: nat, c: nat) returns (h: nat)
    requires Behaves(x) && i < |x.states| && c < |x.states[i].commands| && x.states[i].commands[c].stage.Returned?
    ensures h < i && x.events[h].event == ESuccessAudit(c, true) && c < |x.states[h].commands|
    ensures x.states[h].commands[c].stage == AwaitAudit(x.states[i].commands[c].stage.bytes, x.states[i].commands[c].stage.releasedAt)
    decreases i
  {
    hide Step, Called, PassedOn;
    assert i > 0 by {
      assert Start(x.secret).commands == [];
    }
    CommandsMove(x, i - 1, c);
    if x.states[i].commands[c].stage == x.states[i - 1].commands[c].stage {
      h := ReturnBegins(x, i - 1, c);
    } else {
      StageMoves(x, i - 1, c);
      h := i - 1;
    }
  }

  /**
   * The life of a returned result. It comes from a call, whose browser answer met a lease that still served,
   * and whose success audit was then written. If the call was a snapshot, the answer was a result of exactly
   * the bytes on record, at most 256 000 and at most the egress then left, and the lease paid them in that
   * step; any other call is on record with no bytes.
   */
  lemma ReturnedWasPaid(x: Execution, i: nat, c: nat) returns (k: nat, j: nat, h: nat)
    requires Behaves(x) && i < |x.states| && c < |x.states[i].commands| && x.states[i].commands[c].stage.Returned?
    ensures k < j < h < i && Called(x, k, c) && x.events[h].event == ESuccessAudit(c, true)
    ensures var l, bytes := x.events[k].event.l, x.states[i].commands[c].stage.bytes;
            && x.events[j].event.EBrowserReply? && x.events[j].event.c == c && x.events[j].event.answer.BrowserResult?
            && x.events[j].now == x.states[i].commands[c].stage.releasedAt
            && l < |x.states[j].leases| && l < |x.states[j + 1].leases|
            && var before, after := x.states[j].leases[l], x.states[j + 1].leases[l];
               && before.revokedAt == None && x.events[j].now < before.expiresAt && x.events[j].now < before.lastUsedAt + 120_000
               && after.remainingEgress == before.remainingEgress - bytes
               && if x.events[k].event.call.Snapshot?
                  then x.events[j].event.answer.bytes == Some(bytes) && bytes <= 256_000 && bytes <= before.remainingEgress
                  else bytes == 0
  {
    hide Step;
    h := ReturnBegins(x, i, c);
    j := PassedBegins(x, h, c);
    k := CommandBegins(x, j, c);
    var again := CommandBegins(x, i, c);
    CalledOnce(x, k, again, c);
  }

  /** The list of commands only grows, so a command has one call. */
  lemma CalledOnce(x: Execution, k: nat, again: nat, c: nat)
    requires Behaves(x) && Called(x, k, c) && Called(x, again, c)
    ensures k == again
  {
    hide Step;
    if k < again {
      RunMoves(x, k + 1, again);
    } else if again < k {
      RunMoves(x, again + 1, k);
    }
  }
}
