/** Sessions do not see or touch each other, and a disconnected session stays empty. */
module BrokerSessions {
  import opened Wrappers
  import opened Broker
  import opened BrokerInvariants
  import opened BrokerLedger
  import opened BrokerWindows
  import opened BrokerBounds
  import opened BrokerSteps
  import opened BrokerRuns
  import opened BrokerExpiry

  // -------------------------------------------------------- contexts in runs

  /** Only browser connections register a browser instance. */
  ghost predicate RolesKept(s: Broker) {
    forall ctx | 0 <= ctx < |s.contexts| :: s.contexts[ctx].role == AgentRole ==> s.contexts[ctx].browserInstanceId == None
  }

  /** How a segment may change the contexts: roles stay, and an agent registers no instance. */
  ghost predicate ContextsKept(s: Broker, t: Broker) {
    && |s.contexts| <= |t.contexts|
    && (forall ctx | 0 <= ctx < |s.contexts| :: t.contexts[ctx].role == s.contexts[ctx].role)
    && (RolesKept(s) ==> RolesKept(t))
  }

  lemma HandleKeepsContexts(s: Broker, e: Event, now: int)
    requires IdsInHeap(s) && IsCall(e) && Enabled(s, e)
    ensures ContextsKept(s, Handle(s, e, now))
  {
    hide ExpireRecords, PendingRefusal, RequestRoom, LeaseRoom, AuthorizeCommand, ReserveCommand, GrantRefusal,
         CommandRefusal, IssueCapability, Within;
  }

  lemma ResumeKeepsContexts(s: Broker, e: Event, now: int)
    requires IdsInHeap(s) && !IsCall(e) && Enabled(s, e)
    ensures ContextsKept(s, Resume(s, e, now))
  {
    hide ExpiryReason, EgressRefusal, Within;
  }

  lemma StepKeepsContexts(s: Broker, e: Event, now: int)
    ensures ContextsKept(s, Step(s, e, now))
  {
    hide Maintain, Handle, Resume;
    if IdsInHeap(s) && Enabled(s, e) {
      if IsCall(e) {
        HandleKeepsContexts(Maintain(s, now), e, now);
      } else {
        ResumeKeepsContexts(s, e, now);
      }
    }
  }

  lemma {:induction false} RunKeepsRoles(x: Execution, i: nat, j: nat)
    requires Behaves(x) && i <= j < |x.states|
    ensures ContextsKept(x.states[i], x.states[j])
    ensures RolesKept(x.states[j])
    decreases j
  {
    hide Step;
    if 0 < j {
      var k := if i < j then i else j - 1;
      RunKeepsRoles(x, k, j - 1);
      assert StepsTo(x, j - 1);
      StepKeepsContexts(x.states[j - 1], x.events[j - 1].event, x.events[j - 1].now);
    }
  }

  // ------------------------------------------------------ what an agent sees

  /** The entries of one session among the recorded requests, in map order. */
  function OwnRequests(requests: seq<AccessRequest>, ids: seq<nat>, session: nat): seq<(nat, AccessRequest)>
    requires Within(ids, |requests|)
    decreases |ids|
  {
    if ids == [] then []
    else
      var r := ids[0];
      (if requests[r].session == session then [(r, requests[r])] else []) + OwnRequests(requests, ids[1..], session)
  }

  function OwnLeases(leases: seq<Lease>, ids: seq<nat>, session: nat): seq<(nat, Lease)>
    requires Within(ids, |leases|)
    decreases |ids|
  {
    if ids == [] then []
    else
      var l := ids[0];
      (if leases[l].session == session then [(l, leases[l])] else []) + OwnLeases(leases, ids[1..], session)
  }

  datatype View = View(requests: seq<(nat, AccessRequest)>, leases: seq<(nat, Lease)>)

  function Own(s: Broker, session: nat): View
    requires IdsInHeap(s)
  {
    View(OwnRequests(s.requests, s.requestIds, session), OwnLeases(s.leases, s.leaseIds, session))
  }

  /** `access.status`: what the agent of a session is shown at this time. */
  function AccessStatus(s: Broker, session: nat, now: int): View
    requires IdsInHeap(s)
  {
    Own(ExpireRecords(s, now), session)
  }

  function ActiveOnly(leases: seq<(nat, Lease)>, now: int): seq<(nat, Lease)> {
    if leases == [] then []
    else (if LeaseActive(leases[0].1, now) then [leases[0]] else []) + ActiveOnly(leases[1..], now)
  }

  /** `browser.tabs.list`: the active leases of the session. */
  function GrantedTabs(s: Broker, session: nat, now: int): seq<(nat, Lease)>
    requires IdsInHeap(s)
  {
    ActiveOnly(AccessStatus(s, session, now).leases, now)
  }

  lemma {:induction false} OwnRequestsHolds(requests: seq<AccessRequest>, ids: seq<nat>, session: nat, r: nat)
    requires Within(ids, |requests|) && r < |requests|
    ensures r in ids && requests[r].session == session <==> (r, requests[r]) in OwnRequests(requests, ids, session)
    decreases |ids|
  {
    if ids != [] {
      OwnRequestsHolds(requests, ids[1..], session, r);
    }
  }

  lemma {:induction false} OwnLeasesHolds(leases: seq<Lease>, ids: seq<nat>, session: nat, l: nat)
    requires Within(ids, |leases|)
    ensures forall lease :: (l, lease) in OwnLeases(leases, ids, session) <==>
              l in ids && l < |leases| && leases[l] == lease && lease.session == session
    decreases |ids|
  {
    if ids != [] {
      OwnLeasesHolds(leases, ids[1..], session, l);
    }
  }

  /** Expiring the own entries one by one gives the own entries of the expired heap. */
  lemma {:induction false} OwnLeasesExpire(leases: seq<Lease>, after: seq<Lease>, ids: seq<nat>, session: nat, now: int)
    requires Within(ids, |leases|) && |after| == |leases|
    requires forall l | 0 <= l < |leases| :: after[l] == CheckedLease(leases[l], now)
    ensures var own, ended := OwnLeases(leases, ids, session), OwnLeases(after, ids, session);
            |ended| == |own| && forall i | 0 <= i < |own| :: ended[i] == (own[i].0, CheckedLease(own[i].1, now))
    decreases |ids|
  {
    if ids != [] {
      OwnLeasesExpire(leases, after, ids[1..], session, now);
    }
  }

  lemma {:induction false} OwnRequestsExpire(s: Broker, t: Broker, ids: seq<nat>, session: nat, now: int)
    requires Within(ids, |s.requests|) && |t.requests| == |s.requests|
    requires forall r | 0 <= r < |s.requests| :: t.requests[r] == CheckedRequest(s, r, now)
    ensures var own, ended := OwnRequests(s.requests, ids, session), OwnRequests(t.requests, ids, session);
            |ended| == |own| && forall i | 0 <= i < |own| :: own[i].0 < |s.requests| && ended[i] == (own[i].0, CheckedRequest(s, own[i].0, now))
    decreases |ids|
  {
    if ids != [] {
      OwnRequestsExpire(s, t, ids[1..], session, now);
    }
  }

  /** A request expires the same way in two states that agree on its session's records. */
  lemma SameExpiry(s: Broker, t: Broker, session: nat, now: int, r: nat)
    requires Inv(s, now) && Inv(t, now)
    requires OwnLeases(s.leases, s.leaseIds, session) == OwnLeases(t.leases, t.leaseIds, session)
    requires r in s.requestIds && r in t.requestIds && r < |s.requests| && r < |t.requests|
    requires s.requests[r] == t.requests[r] && s.requests[r].session == session
    ensures CheckedRequest(s, r, now) == CheckedRequest(t, r, now)
  {
    assert RequestCoupled(s, r) && RequestCoupled(t, r);
    if s.requests[r].leaseId.Some? {
      var l := s.requests[r].leaseId.value;
      assert LeaseCoupled(s, l) && LeaseCoupled(t, l);
      OwnLeasesHolds(s.leases, s.leaseIds, session, l);
      OwnLeasesHolds(t.leases, t.leaseIds, session, l);
    }
  }

  /** The own requests of an entry list name recorded requests of that session. */
  lemma {:induction false} OwnRequestsAre(requests: seq<AccessRequest>, ids: seq<nat>, session: nat)
    requires Within(ids, |requests|)
    ensures var own := OwnRequests(requests, ids, session);
            forall p | p in own :: p.0 in ids && p.0 < |requests| && p.1 == requests[p.0] && p.1.session == session
    decreases |ids|
  {
    if ids != [] {
      OwnRequestsAre(requests, ids[1..], session);
    }
  }

  /**
   * The status of a session depends only on that session's records: two broker states that agree on
   * them show the agent the same, whatever else they hold.
   */
  lemma ViewsAreIsolated(s: Broker, t: Broker, session: nat, now: int)
    requires Inv(s, now) && Inv(t, now)
    requires Own(s, session) == Own(t, session)
    ensures AccessStatus(s, session, now) == AccessStatus(t, session, now)
  {
    var u, v := ExpireRecords(s, now), ExpireRecords(t, now);
    ExpirePointwise(s, now);
    ExpirePointwise(t, now);
    OwnLeasesExpire(s.leases, u.leases, s.leaseIds, session, now);
    OwnLeasesExpire(t.leases, v.leases, t.leaseIds, session, now);
    OwnRequestsExpire(s, u, s.requestIds, session, now);
    OwnRequestsExpire(t, v, t.requestIds, session, now);
    OwnRequestsAre(s.requests, s.requestIds, session);
    OwnRequestsAre(t.requests, t.requestIds, session);
    hide Inv, ExpireRecords, CheckedRequest, CheckedLease, OwnLeases, OwnRequests;
    var own := Own(s, session).requests;
    forall i | 0 <= i < |own| ensures AccessStatus(s, session, now).requests[i] == AccessStatus(t, session, now).requests[i] {
      SameExpiry(s, t, session, now, own[i].0);
    }
    assert AccessStatus(s, session, now).requests == AccessStatus(t, session, now).requests;
    assert AccessStatus(s, session, now).leases == AccessStatus(t, session, now).leases;
  }

  /** So in any two runs: agents of sessions with equal records see equal status and equal tabs. */
  lemma RunsShowTheSame(x: Execution, i: nat, y: Execution, j: nat, session: nat, now: int)
    requires Behaves(x) && i < |x.states| && Behaves(y) && j < |y.states|
    requires Clock(x, i) <= now && Clock(y, j) <= now
    requires IdsInHeap(x.states[i]) && IdsInHeap(y.states[j]) && Own(x.states[i], session) == Own(y.states[j], session)
    ensures AccessStatus(x.states[i], session, now) == AccessStatus(y.states[j], session, now)
    ensures GrantedTabs(x.states[i], session, now) == GrantedTabs(y.states[j], session, now)
  {
    RunKeepsInv(x, i);
    RunKeepsInv(y, j);
    LaterKeepsInv(x.states[i], Clock(x, i), now);
    LaterKeepsInv(y.states[j], Clock(y, j), now);
    hide Inv, AccessStatus, Own;
    ViewsAreIsolated(x.states[i], y.states[j], session, now);
  }

  // ------------------------------------------------------- settled records

  /** Nothing is left to expire at this time. */
  ghost predicate Settled(s: Broker, now: int) {
    && (forall l | 0 <= l < |s.leases| :: CheckedLease(s.leases[l], now) == s.leases[l])
    && (forall r | 0 <= r < |s.requests| :: CheckedRequest(s, r, now) == s.requests[r])
  }

  /** What maintenance makes of the records, and that a second pass at the same time finds nothing. */
  lemma MaintainSettles(s: Broker, now: int)
    requires Inv(s, now)
    ensures var m := Maintain(s, now);
            && Settled(m, now)
            && (forall l | 0 <= l < |s.leases| :: m.leases[l] == CheckedLease(s.leases[l], now))
            && (forall r | 0 <= r < |s.requests| :: m.requests[r] == CheckedRequest(s, r, now))
  {
    assert IdsInHeap(s);
    hide Inv;
    ExpirePointwise(s, now);
    var m := Maintain(s, now);
    assert forall r | r in m.requestIds :: r in s.requestIds;
    forall r | 0 <= r < |m.requests| ensures CheckedRequest(m, r, now) == m.requests[r] {
      hide Maintain, ExpireRecords, Within;
      CheckedTwice(s, m, r, now);
    }
  }

  /** Expiring a request that expiry has just seen changes nothing. */
  lemma CheckedTwice(s: Broker, m: Broker, r: nat, now: int)
    requires r < |s.requests| && |m.requests| == |s.requests| && |m.leases| == |s.leases|
    requires r in m.requestIds ==> r in s.requestIds
    requires m.requests[r] == CheckedRequest(s, r, now)
    requires forall l | 0 <= l < |s.leases| :: m.leases[l] == CheckedLease(s.leases[l], now)
    ensures CheckedRequest(m, r, now) == m.requests[r]
  {
  }

  lemma SettledStays(s: Broker, now: int)
    requires Inv(s, now) && Settled(s, now)
    ensures ExpireRecords(s, now) == s
  {
    ExpirePointwise(s, now);
    assert ExpireRecords(s, now).leases == s.leases;
    assert ExpireRecords(s, now).requests == s.requests;
  }

  // -------------------------------------------------------------- isolation

  /** A segment that runs on behalf of the agent of session `a`. */
  predicate AgentEvent(s: Broker, e: Event, a: nat) {
    IsAgent(s, a) &&
    match e
    case ERequest(ctx, _) => ctx == a
    case EStatus(ctx) => ctx == a
    case EAgentRevoke(ctx, _) => ctx == a
    case EExecute(ctx, _, _) => ctx == a
    case EDisconnect(ctx) => ctx == a
    case EBrowserReply(c, _) => c < |s.commands| && s.commands[c].lease < |s.leases| && s.leases[s.commands[c].lease].session == a
    case ESuccessAudit(c, _) => c < |s.commands| && s.commands[c].lease < |s.leases| && s.leases[s.commands[c].lease].session == a
    case EDenialAudit(c) => c < |s.commands| && s.commands[c].lease < |s.leases| && s.leases[s.commands[c].lease].session == a
    case _ => false
  }

  /** Only records of session `a` changed, and only it gained any. */
  ghost predicate OnlyOwn(s: Broker, t: Broker, a: nat) {
    && |t.leases| == |s.leases| && |t.requests| >= |s.requests|
    && (forall l | 0 <= l < |s.leases| && s.leases[l].session != a :: t.leases[l] == s.leases[l])
    && (forall r | 0 <= r < |s.requests| && s.requests[r].session != a :: t.requests[r] == s.requests[r])
    && (forall r | |s.requests| <= r < |t.requests| :: t.requests[r].session == a)
  }

  lemma RevokeOwn(s: Broker, l: nat, reason: string, now: int)
    requires l < |s.leases| && Structured(s)
    ensures OnlyOwn(s, RevokeLease(s, l, reason, now), s.leases[l].session)
  {
    hide Increasing;
  }

  lemma CheckOwn(s: Broker, l: nat, now: int)
    requires l < |s.leases| && Structured(s)
    ensures OnlyOwn(s, CheckLease(s, l, now), s.leases[l].session)
  {
    if ExpiryReason(s.leases[l], now).Some? {
      RevokeOwn(s, l, ExpiryReason(s.leases[l], now).value, now);
    }
  }

  lemma RequestOwn(s: Broker, ctx: nat, params: RequestParams, now: int)
    requires Inv(s, now) && Settled(s, now) && ctx < |s.contexts|
    ensures OnlyOwn(s, RequestAccess(s, ctx, params, now).0, ctx)
  {
    SettledStays(s, now);
    hide Inv, Settled, ExpireRecords, PendingRefusal, RequestRoom, RequestParamsValid, Dedup;
  }

  lemma ExecuteOwn(s: Broker, l: nat, call: CommandCall, now: int)
    requires l < |s.leases| && Structured(s)
    ensures OnlyOwn(s, ExecuteWithLease(s, l, call, now).0, s.leases[l].session)
  {
    RevokeOwn(s, l, "BROWSER_DISCONNECTED", now);
    hide RevokeLease, AuthorizeCommand, Structured;
  }

  lemma HandleOwn(s: Broker, e: Event, a: nat, now: int)
    requires Inv(s, now) && Settled(s, now)
    requires IsCall(e) && AgentEvent(s, e, a)
    ensures OnlyOwn(s, Handle(s, e, now), a)
  {
    assert Structured(s) && IdsInHeap(s);
    hide Inv, Settled, Structured, ExpireRecords, RequestAccess, BeginCommand, RevokeLease, Within;
    match e
    case ERequest(ctx, params) => RequestOwn(s, ctx, params, now);
    case EStatus(_) => SettledStays(s, now);
    case EAgentRevoke(ctx, l) =>
      if l in s.leaseIds {
        RecordedOwn(s, l, now);
      }
    case EExecute(ctx, l, call) => BeginOwn(s, ctx, l, call, now);
    case _ =>
  }

  lemma RecordedOwn(s: Broker, l: nat, now: int)
    requires Structured(s) && l in s.leaseIds
    ensures l < |s.leases| && OnlyOwn(s, RevokeLease(s, l, "AGENT_REVOKED", now), s.leases[l].session)
  {
    RevokeOwn(s, l, "AGENT_REVOKED", now);
  }

  lemma BeginOwn(s: Broker, ctx: nat, l: nat, call: CommandCall, now: int)
    requires Structured(s)
    ensures OnlyOwn(s, BeginCommand(s, ctx, l, call, now).0, ctx)
  {
    assert IdsInHeap(s);
    hide Structured, ExecuteWithLease, CheckLease, ScopesGranted, CallValid;
    if l in s.leaseIds {
      CheckOwn(s, l, now);
      ExecuteOwn(s, l, call, now);
    }
  }

  lemma {:induction false} RevokePendingAt(s: Broker, ids: seq<nat>, session: nat, now: int, r: nat)
    requires Within(ids, |s.requests|) && r < |s.requests|
    ensures RevokePending(s, ids, session, now).requests[r] ==
            if r in ids && s.requests[r].session == session && s.requests[r].status == Pending
            then EndedRequest(s.requests[r], RequestRevoked, now) else s.requests[r]
    decreases |ids|
  {
    if ids != [] {
      var q := ids[0];
      var next := if s.requests[q].session == session && s.requests[q].status == Pending
                  then PutRequest(s, q, EndedRequest(s.requests[q], RequestRevoked, now)) else s;
      RevokePendingAt(next, ids[1..], session, now, r);
    }
  }

  lemma {:induction false} RevokeSessionAt(s: Broker, ids: seq<nat>, session: nat, now: int, l: nat)
    requires Within(ids, |s.leases|) && l < |s.leases|
    ensures RevokeSession(s, ids, session, now).leases[l] ==
            if l in ids && s.leases[l].session == session && s.leases[l].revokedAt == None
            then RevokedLease(s.leases[l], "AGENT_DISCONNECTED", now) else s.leases[l]
    decreases |ids|
  {
    if ids != [] {
      var next := if s.leases[ids[0]].session == session then RevokeLease(s, ids[0], "AGENT_DISCONNECTED", now) else s;
      RevokeSessionAt(next, ids[1..], session, now, l);
    }
  }

  /** Revoking a session's leases ends no request that was pending and touches no other session's request. */
  lemma {:induction false} RevokeSessionRequests(s: Broker, ids: seq<nat>, session: nat, now: int, r: nat)
    requires Within(ids, |s.leases|) && r < |s.requests|
    requires forall l | 0 <= l < |s.leases| ::
               s.leases[l].requestId < |s.requests| && s.leases[l].session == s.requests[s.leases[l].requestId].session
    ensures var after := RevokeSession(s, ids, session, now).requests[r];
            && (s.requests[r].session != session ==> after == s.requests[r])
            && (s.requests[r].status != Pending ==> after.status != Pending)
    decreases |ids|
  {
    if ids != [] {
      var next := if s.leases[ids[0]].session == session then RevokeLease(s, ids[0], "AGENT_DISCONNECTED", now) else s;
      RevokeSessionRequests(next, ids[1..], session, now, r);
    }
  }

  lemma DisconnectOwn(s: Broker, ctx: nat, now: int)
    requires Structured(s) && ctx < |s.contexts| && s.contexts[ctx].browserInstanceId == None
    ensures OnlyOwn(s, Disconnect(s, ctx, now), ctx)
  {
    var half, t := RevokePending(s, s.requestIds, ctx, now), Disconnect(s, ctx, now);
    forall r | 0 <= r < |s.requests| ensures half.requests[r].session == s.requests[r].session {
      RevokePendingAt(s, s.requestIds, ctx, now, r);
    }
    forall l | 0 <= l < |s.leases| && s.leases[l].session != ctx ensures t.leases[l] == s.leases[l] {
      RevokeSessionAt(half, s.leaseIds, ctx, now, l);
    }
    forall r | 0 <= r < |s.requests| && s.requests[r].session != ctx ensures t.requests[r] == s.requests[r] {
      RevokePendingAt(s, s.requestIds, ctx, now, r);
      RevokeSessionRequests(half, s.leaseIds, ctx, now, r);
    }
  }

  lemma FinishOwn(s: Broker, l: nat, now: int)
    requires l < |s.leases| && Structured(s)
    ensures OnlyOwn(s, Finish(s, l, now), s.leases[l].session)
  {
    hide Increasing;
  }

  lemma ReplyOwn(s: Broker, c: nat, answer: BrowserAnswer, now: int)
    requires c < |s.commands| && s.commands[c].lease < |s.leases| && Structured(s)
    ensures OnlyOwn(s, BrowserReplied(s, c, answer, now), s.leases[s.commands[c].lease].session)
  {
    CheckOwn(s, s.commands[c].lease, now);
    hide Structured, CheckLease, LeaseActive, EgressRefusal;
  }

  lemma AuditOwn(s: Broker, c: nat, stage: Stage, now: int)
    requires c < |s.commands| && s.commands[c].lease < |s.leases| && Structured(s)
    ensures OnlyOwn(s, Finish(PutStage(s, c, stage), s.commands[c].lease, now), s.leases[s.commands[c].lease].session)
  {
    assert Structured(PutStage(s, c, stage));
    FinishOwn(PutStage(s, c, stage), s.commands[c].lease, now);
  }

  lemma SuccessOwn(s: Broker, c: nat, written: bool, now: int)
    requires c < |s.commands| && s.commands[c].lease < |s.leases| && s.commands[c].stage.AwaitAudit? && Structured(s)
    ensures OnlyOwn(s, SuccessAudited(s, c, written, now), s.leases[s.commands[c].lease].session)
  {
    AuditOwn(s, c, Returned(s.commands[c].stage.reserved, s.commands[c].stage.checkedAt), now);
    hide Structured, Finish;
  }

  lemma ResumeOwn(s: Broker, e: Event, a: nat, now: int)
    requires Inv(s, now) && RolesKept(s)
    requires !IsCall(e) && Enabled(s, e) && AgentEvent(s, e, a)
    ensures OnlyOwn(s, Resume(s, e, now), a)
  {
    assert Structured(s) && IdsInHeap(s);
    hide Inv, Structured, Disconnect, BrowserReplied, SuccessAudited, Finish, IdsInHeap;
    match e
    case EBrowserReply(c, answer) => ReplyOwn(s, c, answer, now);
    case ESuccessAudit(c, written) => SuccessOwn(s, c, written, now);
    case EDenialAudit(c) => AuditOwn(s, c, Failed, now);
    case EDisconnect(ctx) => DisconnectOwn(s, ctx, now);
  }

  /**
   * An agent's segment changes no record of another session beyond what expiry at this time makes of it,
   * creates records of its own session only, and leaves every pending request and unrevoked lease of
   * another session recorded. For the other requests see `DroppedExactly`.
   */
  lemma AgentStepIsolated(x: Execution, i: nat, a: nat)
    requires Behaves(x) && i < |x.events|
    requires AgentEvent(x.states[i], x.events[i].event, a) && Enabled(x.states[i], x.events[i].event)
    ensures var s, t, e, now := x.states[i], x.states[i + 1], x.events[i].event, x.events[i].now;
            && |t.leases| == |s.leases| && |t.requests| >= |s.requests|
            && (forall l | 0 <= l < |s.leases| && s.leases[l].session != a ::
                  && t.leases[l] == (if IsCall(e) then CheckedLease(s.leases[l], now) else s.leases[l])
                  && (t.leases[l].revokedAt == None ==> l in t.leaseIds))
            && (forall r | 0 <= r < |s.requests| && s.requests[r].session != a ::
                  && t.requests[r] == (if IsCall(e) then CheckedRequest(s, r, now) else s.requests[r])
                  && (t.requests[r].status == Pending ==> r in t.requestIds))
            && (forall r | |s.requests| <= r < |t.requests| :: t.requests[r].session == a)
  {
    hide Step, Inv, AgentEvent, Enabled;
    var s, e, now := x.states[i], x.events[i].event, x.events[i].now;
    RunKeepsInv(x, i);
    RunKeepsInv(x, i + 1);
    RunKeepsRoles(x, i, i);
    LaterKeepsInv(s, Clock(x, i), now);
    assert StepsTo(x, i);
    StepOwn(s, e, a, now);
    LiveStaysRecorded(x.states[i + 1], now);
  }

  lemma LiveStaysRecorded(s: Broker, now: int)
    requires Inv(s, now)
    ensures forall l | 0 <= l < |s.leases| :: s.leases[l].revokedAt == None ==> l in s.leaseIds
    ensures forall r | 0 <= r < |s.requests| :: s.requests[r].status == Pending ==> r in s.requestIds
  {
    forall l | 0 <= l < |s.leases| ensures s.leases[l].revokedAt == None ==> l in s.leaseIds {
      assert LeaseCoupled(s, l);
    }
    forall r | 0 <= r < |s.requests| ensures s.requests[r].status == Pending ==> r in s.requestIds {
      assert RequestCoupled(s, r);
    }
  }

  lemma StepOwn(s: Broker, e: Event, a: nat, now: int)
    requires Inv(s, now) && RolesKept(s) && 0 < now && AgentEvent(s, e, a) && Enabled(s, e)
    ensures var t := Step(s, e, now);
            && |t.leases| == |s.leases| && |t.requests| >= |s.requests|
            && (forall l | 0 <= l < |s.leases| && s.leases[l].session != a ::
                  t.leases[l] == (if IsCall(e) then CheckedLease(s.leases[l], now) else s.leases[l]))
            && (forall r | 0 <= r < |s.requests| && s.requests[r].session != a ::
                  t.requests[r] == (if IsCall(e) then CheckedRequest(s, r, now) else s.requests[r]))
            && (forall r | |s.requests| <= r < |t.requests| :: t.requests[r].session == a)
  {
    assert IdsInHeap(s);
    hide Inv, Moves, Handle, Resume, Maintain, Settled;
    if IsCall(e) {
      MaintainSettles(s, now);
      MaintainReaches(s, now);
      HandleOwn(Maintain(s, now), e, a, now);
    } else {
      ResumeOwn(s, e, a, now);
    }
  }

  // ------------------------------------------------------- leaving the map

  /** The broker as the handler of an event finds it. */
  function Met(s: Broker, e: Event, now: int): Broker
    requires IdsInHeap(s)
  {
    if IsCall(e) then Maintain(s, now) else s
  }

  lemma OthersDropNothing(s: Broker, e: Event, now: int)
    requires IdsInHeap(s) && Enabled(s, e) && !e.ERequest?
    ensures IsCall(e) ==> Handle(s, e, now).requestIds == s.requestIds && |Handle(s, e, now).requests| == |s.requests|
    ensures !IsCall(e) ==> Resume(s, e, now).requestIds == s.requestIds && |Resume(s, e, now).requests| == |s.requests|
  {
    hide ExpireRecords, AuthorizeCommand, ReserveCommand, ScopesGranted, CallValid, LeaseRoom, IssueCapability, GrantClaims;
  }

  /** What `access.request` makes of the map when nothing is left to expire and there is room. */
  lemma RequestMap(m: Broker, ctx: nat, params: RequestParams, now: int)
    requires IdsInHeap(m) && ctx < |m.contexts| && ExpireRecords(m, now) == m && RequestRoom(m).1
    ensures var t := RequestAccess(m, ctx, params, now).0;
            t.requestIds == if |t.requests| > |m.requests| then RequestRoom(m).0 + [|m.requests|] else m.requestIds
  {
    hide ExpireRecords, PendingRefusal, RequestParamsValid, Evict, SortBy, NonPending, RequestKeys, NewRequest;
    assert RequestRoom(ReserveRate(m, ctx, now).0) == RequestRoom(m);
    hide RequestRoom;
  }

  lemma RequestDrops(m: Broker, ctx: nat, params: RequestParams, now: int, r: nat)
    requires Inv(m, now) && Settled(m, now) && IdsInHeap(m) && ctx < |m.contexts| && r in m.requestIds
    ensures var t := RequestAccess(m, ctx, params, now).0;
            r !in t.requestIds <==>
              |t.requests| > |m.requests| && |m.requestIds| == ACCESS_REQUEST_RECORD_LIMIT && FirstEnded(m, r)
  {
    SettledStays(m, now);
    EvictedExactly(m, r);
    RoomAvailable(m, now);
    RecordedInHeap(m, r);
    hide Inv, Settled, ExpireRecords, RequestAccess, FirstEnded, RequestRoom, IdsInHeap;
    RequestMap(m, ctx, params, now);
  }

  lemma RecordedInHeap(m: Broker, r: nat)
    requires IdsInHeap(m) && r in m.requestIds
    ensures r < |m.requests|
  {
  }

  /**
   * When a request leaves the map. Beyond the old ends that retention forgets at the start of a call, a
   * step of any connection drops a recorded request exactly when it creates a request while the map is
   * full and the dropped one ended first; a granted request is no exception.
   */
  lemma DroppedExactly(x: Execution, i: nat, r: nat)
    requires Behaves(x) && i < |x.events| && r in x.states[i].requestIds
    ensures var s, t, e, now := x.states[i], x.states[i + 1], x.events[i].event, x.events[i].now;
            && IdsInHeap(s)
            && (r in Met(s, e, now).requestIds && Enabled(s, e) ==>
                  (r !in t.requestIds <==>
                     && e.ERequest? && |t.requests| > |s.requests|
                     && |Met(s, e, now).requestIds| == ACCESS_REQUEST_RECORD_LIMIT && FirstEnded(Met(s, e, now), r)))
  {
    hide Step, Inv, Maintain, Handle, Resume, Enabled, IdsInHeap, Met, FirstEnded;
    RunKeepsInv(x, i);
    var s, e, now := x.states[i], x.events[i].event, x.events[i].now;
    LaterKeepsInv(s, Clock(x, i), now);
    InvKeepsIds(s, now);
    assert StepsTo(x, i);
    if Enabled(s, e) && r in Met(s, e, now).requestIds {
      StepDrops(s, e, now, r);
    }
  }

  lemma StepDrops(s: Broker, e: Event, now: int, r: nat)
    requires Inv(s, now) && IdsInHeap(s) && Enabled(s, e) && r in Met(s, e, now).requestIds
    ensures var t, m := Step(s, e, now), Met(s, e, now);
            r !in t.requestIds <==>
              && e.ERequest? && |t.requests| > |s.requests|
              && |m.requestIds| == ACCESS_REQUEST_RECORD_LIMIT && FirstEnded(m, r)
  {
    hide Inv, Moves, Maintain, Handle, Resume, IdsInHeap, Settled, FirstEnded;
    MaintainSettles(s, now);
    MaintainReaches(s, now);
    var m := Met(s, e, now);
    if e.ERequest? {
      InvKeepsIds(m, now);
      RequestDrops(m, e.ctx, e.request, now, r);
      assert Handle(m, e, now) == RequestAccess(m, e.ctx, e.request, now).0 by {
        HandledRequest(m, e, now);
      }
    } else {
      OthersDropNothing(m, e, now);
    }
  }

  lemma HandledRequest(m: Broker, e: Event, now: int)
    requires IdsInHeap(m) && e.ERequest? && Enabled(m, e)
    ensures Handle(m, e, now) == RequestAccess(m, e.ctx, e.request, now).0
  {
  }

  // ------------------------------------------------------------ disconnects

  /** The session has no pending request and no unrevoked lease. */
  ghost predicate Gone(s: Broker, session: nat) {
    && (forall r | 0 <= r < |s.requests| && s.requests[r].session == session :: s.requests[r].status != Pending)
    && (forall l | 0 <= l < |s.leases| && s.leases[l].session == session :: s.leases[l].revokedAt.Some?)
  }

  lemma DisconnectEmpties(s: Broker, ctx: nat, now: int)
    requires Inv(s, now) && ctx < |s.contexts| && s.contexts[ctx].browserInstanceId == None
    ensures Gone(Disconnect(s, ctx, now), ctx)
  {
    LiveStaysRecorded(s, now);
    assert Structured(s);
    hide Inv;
    var half, t := RevokePending(s, s.requestIds, ctx, now), Disconnect(s, ctx, now);
    DisconnectSessions(s, ctx, now);
    forall r | 0 <= r < |t.requests| && t.requests[r].session == ctx ensures t.requests[r].status != Pending {
      RevokePendingAt(s, s.requestIds, ctx, now, r);
      RevokeSessionRequests(half, s.leaseIds, ctx, now, r);
    }
    forall l | 0 <= l < |t.leases| && t.leases[l].session == ctx ensures t.leases[l].revokedAt.Some? {
      RevokeSessionAt(half, s.leaseIds, ctx, now, l);
    }
  }

  lemma DisconnectSessions(s: Broker, ctx: nat, now: int)
    requires Structured(s)
    ensures var half := RevokePending(s, s.requestIds, ctx, now);
            forall r | 0 <= r < |s.requests| :: half.requests[r].session == s.requests[r].session
  {
    forall r | 0 <= r < |s.requests| ensures RevokePending(s, s.requestIds, ctx, now).requests[r].session == s.requests[r].session {
      RevokePendingAt(s, s.requestIds, ctx, now, r);
    }
  }

  /** A lease is added only by granting a pending request, to the session of that request. */
  lemma GrantAdds(s: Broker, ctx: nat, params: GrantParams, now: int)
    requires IdsInHeap(s) && ctx < |s.contexts|
    ensures var t := GrantAccess(s, ctx, params, now).0;
            && |t.requests| == |s.requests| && |s.leases| <= |t.leases|
            && (|t.leases| > |s.leases| ==>
                  && |t.leases| == |s.leases| + 1
                  && params.requestId < |s.requests| && s.requests[params.requestId].status == Pending
                  && t.leases[|s.leases|].session == s.requests[params.requestId].session)
  {
    hide LeaseRoom, IssueCapability, GrantClaims;
  }

  /** New requests come from `access.request` only, and new leases from granting a pending request. */
  lemma HandleAdds(s: Broker, e: Event, now: int)
    requires IdsInHeap(s) && IsCall(e) && Enabled(s, e)
    ensures var t := Handle(s, e, now);
            && (forall r | |s.requests| <= r < |t.requests| :: e.ERequest? && t.requests[r].session == e.ctx)
            && (forall l | |s.leases| <= l < |t.leases| ::
                  && e.EGrant? && e.grant.requestId < |s.requests| && s.requests[e.grant.requestId].status == Pending
                  && t.leases[l].session == s.requests[e.grant.requestId].session)
  {
    hide ExpireRecords, PendingRefusal, RequestRoom, AuthorizeCommand, ReserveCommand, ScopesGranted, CallValid, GrantAccess;
    if e.EGrant? {
      GrantAdds(s, e.ctx, e.grant, now);
    }
  }

  lemma ResumeAdds(s: Broker, e: Event, now: int)
    requires Structured(s) && !IsCall(e) && Enabled(s, e)
    ensures |Resume(s, e, now).requests| == |s.requests| && |Resume(s, e, now).leases| == |s.leases|
  {
    hide Structured;
  }

  /** Records that were there move forward, so a session that is gone can come back only by a new record. */
  lemma GoneMoves(s: Broker, t: Broker, session: nat)
    requires Moves(s, t) && Gone(s, session)
    requires forall r | |s.requests| <= r < |t.requests| :: t.requests[r].session != session
    requires forall l | |s.leases| <= l < |t.leases| :: t.leases[l].session != session
    ensures Gone(t, session)
  {
    forall r | 0 <= r < |t.requests| && t.requests[r].session == session ensures t.requests[r].status != Pending {
      assert r < |s.requests| && RequestMoves(s.requests[r], t.requests[r]);
    }
    forall l | 0 <= l < |t.leases| && t.leases[l].session == session ensures t.leases[l].revokedAt.Some? {
      assert l < |s.leases| && LeaseMoves(s.leases[l], t.leases[l]);
    }
  }

  lemma StepKeepsGone(s: Broker, e: Event, clock: int, now: int, session: nat)
    requires Inv(s, clock) && clock <= now && 0 < now && Gone(s, session)
    requires !(e.ERequest? && e.ctx == session)
    ensures Gone(Step(s, e, now), session)
  {
    LaterKeepsInv(s, clock, now);
    assert Structured(s) && IdsInHeap(s);
    hide Inv, Moves, Maintain, Handle, Resume, Structured;
    if Enabled(s, e) {
      if IsCall(e) {
        StepByCallKeepsGone(s, e, now, session);
      } else {
        ResumeReaches(s, e, now);
        ResumeAdds(s, e, now);
        GoneMoves(s, Step(s, e, now), session);
      }
    }
  }

  lemma StepByCallKeepsGone(s: Broker, e: Event, now: int, session: nat)
    requires IdsInHeap(s) && Enabled(s, e) && IsCall(e) && Inv(s, now) && 0 < now && Gone(s, session)
    requires !(e.ERequest? && e.ctx == session)
    ensures Gone(Step(s, e, now), session)
  {
    hide Ledger, LeaseWindows, RequestWindows, Bounded, Coupled, Synced, Moves, Handle, Resume;
    var m := Maintain(s, now);
    MaintainReaches(s, now);
    GoneMoves(s, m, session);
    HandleReaches(m, e, now);
    HandleAdds(m, e, now);
    GoneMoves(m, Handle(m, e, now), session);
  }

  lemma InvKeepsIds(s: Broker, now: int)
    requires Inv(s, now)
    ensures IdsInHeap(s)
  {
  }

  /** The context of an agent is disconnected by event `k` and issues no request after that before event `i`. */
  ghost predicate Left(x: Execution, k: nat, i: nat, ctx: nat)
    requires Behaves(x) && k < i < |x.states|
  {
    && x.events[k].event == EDisconnect(ctx) && IsAgent(x.states[k], ctx)
    && forall j | k < j < i :: !(x.events[j].event.ERequest? && x.events[j].event.ctx == ctx)
  }

  /** After an agent disconnected, no later state holds a pending request or an unrevoked lease of its session. */
  lemma {:induction false} DisconnectedStaysEmpty(x: Execution, k: nat, i: nat, ctx: nat)
    requires Behaves(x) && k < i < |x.states| && Left(x, k, i, ctx)
    ensures Gone(x.states[i], ctx)
    decreases i
  {
    hide Inv, Disconnect, Gone;
    var s, e, now := x.states[i - 1], x.events[i - 1].event, x.events[i - 1].now;
    RunKeepsInv(x, i - 1);
    assert StepsTo(x, i - 1);
    if k == i - 1 {
      RunKeepsRoles(x, k, k);
      LaterKeepsInv(s, Clock(x, i - 1), now);
      InvKeepsIds(s, now);
      DisconnectEmpties(s, ctx, now);
    } else {
      DisconnectedStaysEmpty(x, k, i - 1, ctx);
      hide Step;
      StepKeepsGone(s, e, Clock(x, i - 1), now, ctx);
    }
  }

  lemma {:induction false} RevokeOnBrowserAt(s: Broker, ids: seq<nat>, instance: string, now: int, l: nat)
    requires Within(ids, |s.leases|) && l < |s.leases|
    ensures RevokeOnBrowser(s, ids, instance, now).leases[l] ==
            if l in ids && s.leases[l].browserInstanceId == instance && s.leases[l].revokedAt == None
            then RevokedLease(s.leases[l], "BROWSER_DISCONNECTED", now) else s.leases[l]
    decreases |ids|
  {
    if ids != [] {
      var next := if s.leases[ids[0]].browserInstanceId == instance then RevokeLease(s, ids[0], "BROWSER_DISCONNECTED", now) else s;
      RevokeOnBrowserAt(next, ids[1..], instance, now, l);
    }
  }

  /**
   * A browser connection that goes away ends exactly the unrevoked leases of the instance it registered
   * last, whichever context those were granted through; an instance it registered earlier keeps its own.
   */
  lemma BrowserDisconnectExact(x: Execution, i: nat, ctx: nat)
    requires Behaves(x) && i < |x.events| && x.events[i].event == EDisconnect(ctx)
    requires ctx < |x.states[i].contexts| && x.states[i].contexts[ctx].browserInstanceId.Some?
    ensures var s, t, now := x.states[i], x.states[i + 1], x.events[i].now;
            var instance := s.contexts[ctx].browserInstanceId.value;
            && |t.leases| == |s.leases| && t.browsers == s.browsers - {instance}
            && (forall l | 0 <= l < |s.leases| ::
                  t.leases[l] == if s.leases[l].browserInstanceId == instance && s.leases[l].revokedAt == None
                                 then RevokedLease(s.leases[l], "BROWSER_DISCONNECTED", now) else s.leases[l])
  {
    hide Inv, Step;
    var s := x.states[i];
    RunKeepsInv(x, i);
    LiveStaysRecorded(s, Clock(x, i));
    InvKeepsIds(s, Clock(x, i));
    assert StepsTo(x, i);
    ReleasedExactly(s, ctx, x.events[i].now);
  }

  lemma ReleasedExactly(s: Broker, ctx: nat, now: int)
    requires IdsInHeap(s) && ctx < |s.contexts| && s.contexts[ctx].browserInstanceId.Some?
    requires forall l | 0 <= l < |s.leases| :: s.leases[l].revokedAt == None ==> l in s.leaseIds
    ensures var t, instance := Step(s, EDisconnect(ctx), now), s.contexts[ctx].browserInstanceId.value;
            && |t.leases| == |s.leases| && t.browsers == s.browsers - {instance}
            && (forall l | 0 <= l < |s.leases| ::
                  t.leases[l] == if s.leases[l].browserInstanceId == instance && s.leases[l].revokedAt == None
                                 then RevokedLease(s.leases[l], "BROWSER_DISCONNECTED", now) else s.leases[l])
  {
    var instance := s.contexts[ctx].browserInstanceId.value;
    var released := s.(browsers := s.browsers - {instance});
    assert Step(s, EDisconnect(ctx), now) == RevokeOnBrowser(released, s.leaseIds, instance, now);
    hide Step, RevokeOnBrowser, IdsInHeap;
    forall l | 0 <= l < |s.leases| ensures RevokeOnBrowser(released, s.leaseIds, instance, now).leases[l] ==
      if s.leases[l].browserInstanceId == instance && s.leases[l].revokedAt == None
      then RevokedLease(s.leases[l], "BROWSER_DISCONNECTED", now) else s.leases[l]
    {
      RevokeOnBrowserAt(released, s.leaseIds, instance, now, l);
    }
  }
}
