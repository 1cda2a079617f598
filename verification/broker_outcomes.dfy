/** Revocations, denials, disconnects and connections, what agents are shown, and what callers are told. */
module BrokerOutcomes {
  import opened Wrappers
  import opened Policy
  import opened Broker
  import opened BrokerInvariants
  import opened BrokerBounds
  import opened BrokerSteps
  import opened BrokerRuns
  import opened BrokerExpiry
  import opened BrokerSessions
  import opened BrokerProperties
  import opened BrokerWindows
  import opened BrokerRates
  import opened BrokerLaws
  import opened BrokerCommands

  // ------------------------------------------------- revocations and denials

  /** The lease ended now for this reason, with its recorded request, and nothing else among the records changed. */
  ghost predicate Revokes(m: Broker, t: Broker, l: nat, reason: string, now: int)
    requires l < |m.leases|
  {
    && |t.leases| == |m.leases| && (forall k | 0 <= k < |m.leases| && k != l :: t.leases[k] == m.leases[k])
    && if reason == "LEASE_EXPIRED" then
         && t.leases[l] == m.leases[l].(revokedAt := Some(now), revokeReason := Some(reason), policy := m.leases[l].policy.(state := Expired))
         && RequestEnded(m, t, m.leases[l].requestId, RequestExpired, now)
       else EndedFor(m.leases[l], t.leases[l], reason, now) && RequestEnded(m, t, m.leases[l].requestId, RequestRevoked, now)
  }

  lemma RevokeRevokes(m: Broker, l: nat, reason: string, now: int)
    requires Structured(m) && l < |m.leases|
    ensures var t := RevokeLease(m, l, reason, now);
            if m.leases[l].revokedAt == None then Revokes(m, t, l, reason, now) else t == m
  {
    if m.leases[l].revokedAt == None {
      RevokeOutcome(m, l, reason, now);
    }
  }

  /**
   * A browser connection revokes a lease exactly when it is recorded and of the instance it registered, for
   * the reason it gives; an agent exactly when the lease is recorded and its own. The lease then ends now
   * with its request, unless it had ended before; in every other case no record changes.
   */
  lemma RevokeExactly(x: Execution, i: nat, l: nat, reason: string)
    requires Behaves(x) && i < |x.events|
    requires var e := x.events[i].event;
             (e.EBrowserRevoke? && e.l == l && e.reason == reason) || (e.EAgentRevoke? && e.l == l && reason == "AGENT_REVOKED")
    requires x.events[i].event.ctx < |x.states[i].contexts|
    ensures IdsInHeap(x.states[i])
    ensures var m, t, now, ctx := Maintain(x.states[i], x.events[i].now), x.states[i + 1], x.events[i].now, x.events[i].event.ctx;
            var context := x.states[i].contexts[ctx];
            var role := if x.events[i].event.EBrowserRevoke? then BrowserRole else AgentRole;
            if context.role != role then t == x.states[i]
            else if l in m.leaseIds && m.leases[l].revokedAt == None
                    && (if role == BrowserRole then context.browserInstanceId == Some(m.leases[l].browserInstanceId) else m.leases[l].session == ctx)
            then Revokes(m, t, l, reason, now)
            else t.leases == m.leases && t.requests == m.requests
  {
    hide Inv, Resume, Settled, Maintain, Revokes, RevokeLease, Structured;
    StepMeets(x, i);
    assert StepsTo(x, i);
    var s, now := x.states[i], x.events[i].now;
    var m := Met(s, x.events[i].event, now);
    InvStructured(m, now);
    if Enabled(s, x.events[i].event) && l in m.leaseIds {
      RevokeRevokes(m, l, reason, now);
    }
  }

  /** A browser connection denies exactly a recorded pending request: it ends now, and nothing else changes. */
  lemma DenyExactly(x: Execution, i: nat, ctx: nat, r: nat)
    requires Behaves(x) && i < |x.events| && x.events[i].event == EDeny(ctx, r) && ctx < |x.states[i].contexts|
    ensures IdsInHeap(x.states[i])
    ensures var m, t, now := Maintain(x.states[i], x.events[i].now), x.states[i + 1], x.events[i].now;
            if x.states[i].contexts[ctx].role != BrowserRole then t == x.states[i]
            else
              && t.leases == m.leases && |t.requests| == |m.requests|
              && forall q | 0 <= q < |m.requests| ::
                   t.requests[q] == if q == r && r in m.requestIds && m.requests[r].status == Pending
                                    then m.requests[q].(status := Denied, terminalAt := Some(now)) else m.requests[q]
  {
    hide Inv, Resume, Settled, Maintain;
    StepMeets(x, i);
    assert StepsTo(x, i);
  }

  /** Reporting a grant ends its lease if it has run out meanwhile, and changes nothing else. */
  lemma GrantReportExactly(x: Execution, i: nat, l: nat)
    requires Behaves(x) && i < |x.events| && x.events[i].event == EGrantReply(l) && l < |x.states[i].leases|
    ensures var s, t, now := x.states[i], x.states[i + 1], x.events[i].now;
            if s.leases[l].revokedAt == None && !StillServes(s.leases[l], now) then Revokes(s, t, l, "LEASE_EXPIRED", now)
            else t == s
  {
    hide Inv, Settled, Maintain, Handle, Revokes, RevokeLease, Structured;
    StepMeets(x, i);
    var s, now := x.states[i], x.events[i].now;
    InvStructured(s, now);
    UsedUpIsHeld(s, now, l);
    RevokeRevokes(s, l, "LEASE_EXPIRED", now);
  }

  /** An ended lease admits no command any more, however the run goes on. */
  lemma {:induction false} EndedAdmitsNothing(x: Execution, i: nat, j: nat, l: nat)
    requires Behaves(x) && i <= j < |x.states| && l < |x.states[i].leases| && x.states[i].leases[l].revokedAt.Some?
    ensures AdmittedAt(x.states[j].commands, l) == AdmittedAt(x.states[i].commands, l)
    decreases j
  {
    hide Step, Inv, AdmitsNow, CreatesNow, AdmittedAt, Moves, Called, IsCallOf;
    if i < j {
      EndedAdmitsNothing(x, i, j - 1, l);
      var s := x.states[j - 1];
      LeasesOnlyWindDown(x, i, j - 1, l);
      NoneForEnded(x, j - 1, l);
      OthersAdmitted(s.commands, x.states[j].commands, l);
    }
  }

  /** A step creates no command of an ended lease. */
  lemma NoneForEnded(x: Execution, i: nat, l: nat)
    requires Behaves(x) && i < |x.events| && l < |x.states[i].leases| && x.states[i].leases[l].revokedAt.Some?
    ensures var s, t := x.states[i], x.states[i + 1];
            && |s.commands| <= |t.commands|
            && (forall c | 0 <= c < |s.commands| :: t.commands[c].lease == s.commands[c].lease && t.commands[c].admittedAt == s.commands[c].admittedAt)
            && (forall c | |s.commands| <= c < |t.commands| :: t.commands[c].lease != l)
  {
    hide Step, Inv, AdmitsNow, CreatesNow, Moves, Maintain, RoomToRun, ChargedLease, RolledAtMost, EndedFor, RequestEnded;
    var s, t, e, now := x.states[i], x.states[i + 1], x.events[i].event, x.events[i].now;
    RunKeepsInv(x, i);
    assert StepsTo(x, i);
    StepLogs(s, e, Clock(x, i), now);
    AdmitsMeans(s, t, now);
    if |s.commands| < |t.commands| {
      CommandsMove(x, i, |s.commands|);
      if e.ctx < |s.contexts| {
        var kind := CommandExactly(x, i, e.ctx, e.l, e.call);
        LeasesExpireExactly(x, i, now, l);
      } else {
        AbsentCallsNothing(s, e, now);
      }
    }
  }

  lemma AbsentCallsNothing(s: Broker, e: Event, now: int)
    requires e.EExecute? && e.ctx >= |s.contexts|
    ensures Step(s, e, now) == s
  {
  }

  lemma AdmitsMeans(s: Broker, t: Broker, now: int)
    requires AdmitsNow(s, t, now)
    ensures |s.commands| <= |t.commands| <= |s.commands| + 1
    ensures forall c | 0 <= c < |s.commands| :: t.commands[c].lease == s.commands[c].lease && t.commands[c].admittedAt == s.commands[c].admittedAt
  {
  }

  lemma {:induction false} OthersAdmitted(before: seq<Command>, after: seq<Command>, l: nat)
    requires |before| <= |after|
    requires forall c | 0 <= c < |before| :: after[c].lease == before[c].lease && after[c].admittedAt == before[c].admittedAt
    requires forall c | |before| <= c < |after| :: after[c].lease != l
    ensures AdmittedAt(after, l) == AdmittedAt(before, l)
    decreases |after|
  {
    if |before| == |after| {
      AdmittedSame(before, after, l);
    } else {
      OthersAdmitted(before, after[..|after| - 1], l);
      assert AdmittedAt(after[..|after| - 1], l) + [] == AdmittedAt(after[..|after| - 1], l);
    }
  }

  // --------------------------------------------------- connections and reads

  /** An agent that disconnects leaves no open record, each ended now, and no other session's record changes. */
  lemma AgentDisconnectExactly(x: Execution, i: nat, ctx: nat)
    requires Behaves(x) && i < |x.events| && x.events[i].event == EDisconnect(ctx)
    requires ctx < |x.states[i].contexts| && x.states[i].contexts[ctx].browserInstanceId == None
    ensures var s, t, now := x.states[i], x.states[i + 1], x.events[i].now;
            && |t.leases| == |s.leases| && |t.requests| == |s.requests|
            && (forall l | 0 <= l < |s.leases| ::
                  if s.leases[l].session == ctx && s.leases[l].revokedAt == None
                  then EndedFor(s.leases[l], t.leases[l], "AGENT_DISCONNECTED", now) else t.leases[l] == s.leases[l])
            && (forall r | 0 <= r < |s.requests| ::
                  t.requests[r] == if s.requests[r].session == ctx
                                      && (s.requests[r].status == Pending || (s.requests[r].status == Granted && r in s.requestIds))
                                   then s.requests[r].(status := RequestRevoked, terminalAt := Some(now)) else s.requests[r])
  {
    hide Inv, Settled, Handle, Maintain, Disconnect;
    StepMeets(x, i);
    var s, now := x.states[i], x.events[i].now;
    LiveStaysRecorded(s, now);
    InvStructured(s, now);
    DisconnectOutcome(s, ctx, now);
  }

  lemma DisconnectOutcome(s: Broker, ctx: nat, now: int)
    requires Inv(s, now) && IdsInHeap(s) && ctx < |s.contexts| && s.contexts[ctx].browserInstanceId == None
    requires forall l | 0 <= l < |s.leases| :: s.leases[l].revokedAt == None ==> l in s.leaseIds
    requires forall r | 0 <= r < |s.requests| :: s.requests[r].status == Pending ==> r in s.requestIds
    ensures var t := Disconnect(s, ctx, now);
            && |t.leases| == |s.leases| && |t.requests| == |s.requests|
            && (forall l | 0 <= l < |s.leases| ::
                  if s.leases[l].session == ctx && s.leases[l].revokedAt == None
                  then EndedFor(s.leases[l], t.leases[l], "AGENT_DISCONNECTED", now) else t.leases[l] == s.leases[l])
            && (forall r | 0 <= r < |s.requests| ::
                  t.requests[r] == if s.requests[r].session == ctx
                                      && (s.requests[r].status == Pending || (s.requests[r].status == Granted && r in s.requestIds))
                                   then s.requests[r].(status := RequestRevoked, terminalAt := Some(now)) else s.requests[r])
  {
    var half, t := RevokePending(s, s.requestIds, ctx, now), Disconnect(s, ctx, now);
    RevokePendingReaches(s, s.requestIds, ctx, now);
    InvStructured(half, now);
    forall l | 0 <= l < |s.leases|
      ensures if s.leases[l].session == ctx && s.leases[l].revokedAt == None
              then EndedFor(s.leases[l], t.leases[l], "AGENT_DISCONNECTED", now) else t.leases[l] == s.leases[l]
    {
      RevokeSessionAt(half, s.leaseIds, ctx, now, l);
    }
    forall r | 0 <= r < |s.requests|
      ensures t.requests[r] == if s.requests[r].session == ctx
                                  && (s.requests[r].status == Pending || (s.requests[r].status == Granted && r in s.requestIds))
                               then s.requests[r].(status := RequestRevoked, terminalAt := Some(now)) else s.requests[r]
    {
      RequestLive(s, now, r);
      RevokePendingAt(s, s.requestIds, ctx, now, r);
      DisconnectRequest(s, half, ctx, now, r);
    }
  }

  lemma DisconnectRequest(s: Broker, half: Broker, ctx: nat, now: int, r: nat)
    requires Inv(s, now) && IdsInHeap(s) && r < |s.requests| && half == RevokePending(s, s.requestIds, ctx, now) && Inv(half, now)
    requires half.requests[r] == if r in s.requestIds && s.requests[r].session == ctx && s.requests[r].status == Pending
                                 then EndedRequest(s.requests[r], RequestRevoked, now) else s.requests[r]
    requires forall l | 0 <= l < |s.leases| :: s.leases[l].revokedAt == None ==> l in s.leaseIds
    requires s.requests[r].status == Pending ==> r in s.requestIds
    ensures RevokeSession(half, s.leaseIds, ctx, now).requests[r] ==
            if s.requests[r].session == ctx && (s.requests[r].status == Pending || (s.requests[r].status == Granted && r in s.requestIds))
            then s.requests[r].(status := RequestRevoked, terminalAt := Some(now)) else s.requests[r]
  {
    RequestLive(s, now, r);
    LeaseOfRequest(s, now, r);
    InvCoupled(half, now);
    hide Inv, Structured, Coupled, RevokePending, RevokeSession;
    SessionRequestAt(half, s.leaseIds, ctx, now, r);
  }

  lemma LeaseOfRequest(s: Broker, now: int, r: nat)
    requires Inv(s, now) && r < |s.requests|
    ensures s.requests[r].status == Pending ==> s.requests[r].leaseId == None
    ensures s.requests[r].leaseId.Some? ==>
              s.requests[r].leaseId.value < |s.leases| && s.leases[s.requests[r].leaseId.value].session == s.requests[r].session
  {
    assert RequestCoupled(s, r);
    assert Structured(s);
  }

  lemma InvCoupled(s: Broker, now: int)
    requires Inv(s, now)
    ensures Structured(s) && Coupled(s)
  {
  }

  /** Revoking a session's leases ends a recorded request exactly when the lease it points at is among them. */
  lemma {:induction false} SessionRequestAt(s: Broker, ids: seq<nat>, session: nat, now: int, r: nat)
    requires Structured(s) && Coupled(s) && Within(ids, |s.leases|) && r < |s.requests|
    ensures var request := s.requests[r];
            RevokeSession(s, ids, session, now).requests[r] ==
            if r in s.requestIds && request.leaseId.Some? && request.leaseId.value in ids
               && s.leases[request.leaseId.value].session == session && s.leases[request.leaseId.value].revokedAt == None
            then request.(status := RequestRevoked, terminalAt := Some(now)) else request
    decreases |ids|
  {
    if ids != [] {
      var l := ids[0];
      var next := if s.leases[l].session == session then RevokeLease(s, l, "AGENT_DISCONNECTED", now) else s;
      assert LeaseCoupled(s, l) && RequestCoupled(s, r);
      RevokeKeepsCoupled(s, l, "AGENT_DISCONNECTED", now);
      hide Structured, Coupled, RequestCoupled;
      SessionRequestAt(next, ids[1..], session, now, r);
    }
  }

  /** What each event does to the connections: only these five kinds touch them. */
  lemma ConnectionsExactly(x: Execution, i: nat)
    requires Behaves(x) && i < |x.events|
    ensures var s, t, e := x.states[i], x.states[i + 1], x.events[i].event;
            match e
            case ECreate(role, clientId, taskId) =>
              t.contexts == s.contexts + [Context(role, clientId, taskId, None, None)] && t.browsers == s.browsers
            case ERegister(ctx, instance) =>
              if ctx < |s.contexts| && s.contexts[ctx].role == BrowserRole
              then t.contexts == s.contexts[ctx := s.contexts[ctx].(browserInstanceId := Some(instance))] && t.browsers == s.browsers[instance := ctx]
              else t == s
            case EDisconnect(ctx) =>
              && t.contexts == s.contexts
              && t.browsers == if ctx < |s.contexts| && s.contexts[ctx].browserInstanceId.Some?
                               then s.browsers - {s.contexts[ctx].browserInstanceId.value} else s.browsers
            case ERequest(ctx, _) =>
              && |t.contexts| == |s.contexts| && t.browsers == s.browsers
              && forall k | 0 <= k < |s.contexts| ::
                   t.contexts[k] == if k == ctx then s.contexts[k].(window := t.contexts[k].window) else s.contexts[k]
            case _ => t.contexts == s.contexts && t.browsers == s.browsers
  {
    hide Inv, Settled, Maintain, Handle, Resume, Enabled;
    StepMeets(x, i);
    assert StepsTo(x, i);
    var s, e, now := x.states[i], x.events[i].event, x.events[i].now;
    if Enabled(s, e) {
      if IsCall(e) {
        CallConnections(Met(s, e, now), e, now);
      } else {
        ResumeConnections(s, e, now);
      }
    }
    DisabledMeans(s, e);
  }

  lemma DisabledMeans(s: Broker, e: Event)
    ensures e.ERegister? ==> (Enabled(s, e) <==> e.ctx < |s.contexts| && s.contexts[e.ctx].role == BrowserRole)
    ensures e.EDisconnect? ==> (Enabled(s, e) <==> e.ctx < |s.contexts|)
    ensures e.ECreate? ==> Enabled(s, e)
  {
  }

  lemma CallConnections(m: Broker, e: Event, now: int)
    requires IdsInHeap(m) && IsCall(e) && Enabled(m, e)
    ensures var t := Handle(m, e, now);
            match e
            case ERegister(ctx, instance) =>
              && ctx < |m.contexts| && t.browsers == m.browsers[instance := ctx]
              && t.contexts == m.contexts[ctx := m.contexts[ctx].(browserInstanceId := Some(instance))]
            case ERequest(ctx, _) =>
              && |t.contexts| == |m.contexts| && t.browsers == m.browsers
              && forall k | 0 <= k < |m.contexts| ::
                   t.contexts[k] == if k == ctx then m.contexts[k].(window := t.contexts[k].window) else m.contexts[k]
            case _ => t.contexts == m.contexts && t.browsers == m.browsers
  {
    hide ExpireRecords, PendingRefusal, RequestRoom, Within, BeginCommand, GrantAccess;
    match e
    case EExecute(ctx, l, call) => BeginConnections(m, ctx, l, call, now);
    case EGrant(ctx, params) => GrantConnections(m, ctx, params, now);
    case _ =>
  }

  lemma BeginConnections(m: Broker, ctx: nat, l: nat, call: CommandCall, now: int)
    requires IdsInHeap(m)
    ensures var t := BeginCommand(m, ctx, l, call, now).0; t.contexts == m.contexts && t.browsers == m.browsers
  {
    hide CommandRefusal, AuthorizeCommand, ReserveCommand, ExpiryReason;
  }

  lemma GrantConnections(m: Broker, ctx: nat, params: GrantParams, now: int)
    requires IdsInHeap(m) && ctx < |m.contexts|
    ensures var t := GrantAccess(m, ctx, params, now).0; t.contexts == m.contexts && t.browsers == m.browsers
  {
    hide LeaseRoom, IssueCapability, GrantClaims;
  }

  lemma ResumeConnections(s: Broker, e: Event, now: int)
    requires IdsInHeap(s) && !IsCall(e) && Enabled(s, e)
    ensures var t := Resume(s, e, now);
            match e
            case ECreate(role, clientId, taskId) =>
              t.contexts == s.contexts + [Context(role, clientId, taskId, None, None)] && t.browsers == s.browsers
            case EDisconnect(ctx) =>
              && t.contexts == s.contexts && ctx < |s.contexts|
              && t.browsers == if s.contexts[ctx].browserInstanceId.Some? then s.browsers - {s.contexts[ctx].browserInstanceId.value} else s.browsers
            case _ => t.contexts == s.contexts && t.browsers == s.browsers
  {
    hide ExpiryReason, EgressRefusal, Within;
  }

  /** Registrations, status calls and other calls change no record that maintenance leaves. */
  lemma ReadsChangeNothing(x: Execution, i: nat)
    requires Behaves(x) && i < |x.events|
    requires x.events[i].event.EOther? || x.events[i].event.EStatus? || x.events[i].event.ERegister?
    requires Enabled(x.states[i], x.events[i].event)
    ensures IdsInHeap(x.states[i])
    ensures var m, t := Maintain(x.states[i], x.events[i].now), x.states[i + 1];
            t.requests == m.requests && t.requestIds == m.requestIds && t.leases == m.leases && t.leaseIds == m.leaseIds
            && t.nextMaintenanceAt == m.nextMaintenanceAt
  {
    hide Inv, Settled, Maintain, Resume, ExpireRecords;
    StepMeets(x, i);
    var e, now := x.events[i].event, x.events[i].now;
    var m := Met(x.states[i], e, now);
    SettledStays(m, now);
    if e.ERegister? {
      RegisterSettles(m, e.ctx, e.instance, now);
    }
  }

  /** Registering an instance makes nothing expire. */
  lemma RegisterSettles(m: Broker, ctx: nat, instance: string, now: int)
    requires Inv(m, now) && Settled(m, now) && IdsInHeap(m) && ctx < |m.contexts|
    ensures ExpireRecords(RegisterBrowser(m, ctx, instance), now) == RegisterBrowser(m, ctx, instance)
  {
    var t := RegisterBrowser(m, ctx, instance);
    AroundReaches(m, t, now);
    hide Inv, CheckedLease;
    assert Settled(t, now) by {
      forall r | 0 <= r < |t.requests| ensures CheckedRequest(t, r, now) == t.requests[r] {
        assert CheckedRequest(m, r, now) == m.requests[r];
      }
    }
    SettledStays(t, now);
  }

  // ------------------------------------------------------------------ views

  /** What an agent is shown: exactly its session's recorded requests and leases, as expiry leaves them. */
  lemma StatusExactly(s: Broker, session: nat, now: int)
    requires IdsInHeap(s)
    ensures var u, view := ExpireRecords(s, now), AccessStatus(s, session, now);
            && (forall r: nat, request :: (r, request) in view.requests <==>
                  r in s.requestIds && r < |u.requests| && u.requests[r] == request && request.session == session)
            && (forall l: nat, lease :: (l, lease) in view.leases <==>
                  l in s.leaseIds && l < |u.leases| && u.leases[l] == lease && lease.session == session)
  {
    var u := ExpireRecords(s, now);
    forall l: nat, lease: Lease ensures (l, lease) in AccessStatus(s, session, now).leases <==>
                l in s.leaseIds && l < |u.leases| && u.leases[l] == lease && lease.session == session
    {
      OwnLeasesHolds(u.leases, u.leaseIds, session, l);
    }
    hide ExpireRecords;
    OwnRequestsAre(u.requests, u.requestIds, session);
    forall r: nat | r < |u.requests| && r in u.requestIds && u.requests[r].session == session
      ensures (r, u.requests[r]) in AccessStatus(s, session, now).requests
    {
      OwnRequestsHolds(u.requests, u.requestIds, session, r);
    }
  }

  lemma {:induction false} ActiveOnlyHolds(leases: seq<(nat, Lease)>, now: int)
    ensures forall p :: p in ActiveOnly(leases, now) <==> p in leases && LeaseActive(p.1, now)
  {
    if leases != [] {
      ActiveOnlyHolds(leases[1..], now);
      assert leases == [leases[0]] + leases[1..];
    }
  }

  lemma TabsHold(s: Broker, session: nat, now: int, l: nat, lease: Lease)
    requires IdsInHeap(s)
    ensures var u := ExpireRecords(s, now);
            (l, lease) in GrantedTabs(s, session, now) <==>
              l in s.leaseIds && l < |u.leases| && u.leases[l] == lease && lease.session == session && LeaseActive(lease, now)
  {
    StatusExactly(s, session, now);
    hide AccessStatus, ExpireRecords, ActiveOnly, LeaseActive;
    ActiveOnlyHolds(AccessStatus(s, session, now).leases, now);
  }

  /** The tabs an agent is shown are exactly its session's recorded leases that still serve. */
  lemma TabsExactly(x: Execution, i: nat, session: nat, now: int, l: nat)
    requires Behaves(x) && i < |x.states| && Clock(x, i) <= now
    ensures IdsInHeap(x.states[i])
    ensures var s := x.states[i];
            (exists lease :: (l, lease) in GrantedTabs(s, session, now)) <==>
              l in s.leaseIds && l < |s.leases| && s.leases[l].session == session && StillServes(s.leases[l], now)
  {
    var s := x.states[i];
    assert IdsInHeap(s) && Inv(s, now) by {
      Maintained(x, i, now);
    }
    var u := ExpireRecords(s, now);
    hide Inv, Behaves, ExpireRecords, GrantedTabs;
    assert |u.leases| == |s.leases| && forall k | 0 <= k < |s.leases| :: u.leases[k] == CheckedLease(s.leases[k], now) by {
      ExpirePointwise(s, now);
      InvStructured(s, now);
    }
    forall lease: Lease ensures (l, lease) in GrantedTabs(s, session, now) <==>
              l in s.leaseIds && l < |u.leases| && u.leases[l] == lease && lease.session == session && LeaseActive(lease, now)
    {
      TabsHold(s, session, now, l, lease);
    }
    if l in s.leaseIds && l < |s.leases| {
      UsedUpIsHeld(s, now, l);
      ServesChecked(s.leases[l], now);
      hide LeaseActive, StillServes, CheckedLease;
      assert (l, u.leases[l]) in GrantedTabs(s, session, now) <==> s.leases[l].session == session && StillServes(s.leases[l], now);
    }
  }

  lemma ServesChecked(lease: Lease, now: int)
    requires lease.revokedAt == None && lease.policy.remainingUses <= 0 ==> lease.inFlight > 0
    ensures CheckedLease(lease, now).session == lease.session
    ensures LeaseActive(CheckedLease(lease, now), now) <==> StillServes(lease, now)
  {
  }

  // ---------------------------------------------------------------- replies

  /** The reply to an access request names the new request, or a limit that really was reached. */
  lemma RequestReplies(m: Broker, ctx: nat, params: RequestParams, now: int)
    requires Inv(m, now) && Settled(m, now) && IdsInHeap(m) && 0 < now && ctx < |m.contexts| && m.contexts[ctx].role == AgentRole
    ensures match RequestAccess(m, ctx, params, now).1
            case Done(r) => MayAsk(m, ctx, params, now) && r == |m.requests|
            case Throw(InvalidParams) => !(1 <= |params.scopes| <= 7) || (DataEgressModel in params.scopes && params.provider == None)
            case Throw(AccessRequestRateLimit) => UsedAt(m.contexts[ctx].window, now) == 20
            case Throw(GlobalAccessRequestRateLimit) => UsedAt(Some(m.globalWindow), now) == 120
            case Throw(SessionPendingLimit) => |SessionPendingSet(m.requests, ctx)| == 8
            case Throw(GlobalPendingLimit) => |PendingSet(m.requests)| == 100
            case Throw(_) => false
  {
    SettledStays(m, now);
    RateOutcome(m, ctx, now);
    ReserveRateReaches(m, ctx, now);
    var reserved := ReserveRate(m, ctx, now).0;
    RoomAvailable(reserved, now);
    InvPending(reserved, now, ctx);
    RateCodes(m, ctx, now);
    PendingCodes(reserved, ctx);
    hide Inv, Settled, ExpireRecords, ReserveRate, RequestRoom, Charged, RateAllows, Dedup, PendingRefusal, NewRequest;
  }

  lemma RateCodes(m: Broker, ctx: nat, now: int)
    requires ctx < |m.contexts|
    ensures ReserveRate(m, ctx, now).1 in {None, Some(AccessRequestRateLimit), Some(GlobalAccessRequestRateLimit)}
  {
  }

  lemma PendingCodes(m: Broker, ctx: nat)
    requires IdsInHeap(m)
    ensures PendingRefusal(m, ctx) in {None, Some(SessionPendingLimit), Some(GlobalPendingLimit)}
  {
  }

  /** The reply to a grant names the new lease, or a condition that really failed. */
  lemma GrantReplies(m: Broker, ctx: nat, params: GrantParams, now: int)
    requires Inv(m, now) && Settled(m, now) && IdsInHeap(m) && 0 < now && ctx < |m.contexts| && m.contexts[ctx].role == BrowserRole
    ensures match GrantAccess(m, ctx, params, now).1
            case Done(l) => MayGrant(m, ctx, params) && l == |m.leases|
            case Throw(InvalidParams) =>
              || !(1 <= |params.scopes| <= 7) || !(1 <= |params.documentId| <= 128)
              || (params.ttlSeconds.Some? && !(30 <= params.ttlSeconds.value <= 600))
            case Throw(BrowserIdMismatch) => m.contexts[ctx].browserInstanceId != Some(params.browserInstanceId)
            case Throw(AccessRequestNotPending) => params.requestId !in m.requestIds || m.requests[params.requestId].status != Pending
            case Throw(ScopeEscalation) =>
              params.requestId in m.requestIds && exists x :: x in params.scopes && x !in m.requests[params.requestId].scopes
            case Throw(OriginMismatch) => params.urlOrigin != params.origin
            case Throw(LeaseRecordCapacity) => |m.leaseIds| >= 200 && forall l | l in m.leaseIds :: m.leases[l].revokedAt == None
            case Throw(InvalidClaims) => params.requestId in m.requestIds && !NamesFit(m.requests[params.requestId], params)
            case Throw(_) => false
  {
    SettledPending(m, now);
    LeaseRoomExactly(m);
    GrantRefusalExactly(m, ctx, params, now);
    RefusedGrant(m, ctx, params, now);
    hide Inv, Settled, AsksRightly, MayGrant, GrantClaims, LeaseRoom, NamesFit, ClaimsWellFormed, NewLease, Forgets, FirstRevoked, GrantRefusal;
    if GrantRefusal(m, ctx, params, now) == None {
      ClaimsFit(m, m.requests[params.requestId], params, now);
    }
  }

  /** What a refusal before any room is made says is true. */
  lemma RefusedGrant(m: Broker, ctx: nat, params: GrantParams, now: int)
    requires IdsInHeap(m) && ctx < |m.contexts|
    ensures match GrantRefusal(m, ctx, params, now)
            case None => params.requestId in m.requestIds && GrantParamsValid(params)
            case Some(InvalidParams) =>
              || !(1 <= |params.scopes| <= 7) || !(1 <= |params.documentId| <= 128)
              || (params.ttlSeconds.Some? && !(30 <= params.ttlSeconds.value <= 600))
            case Some(BrowserIdMismatch) => m.contexts[ctx].browserInstanceId != Some(params.browserInstanceId)
            case Some(AccessRequestNotPending) => params.requestId !in m.requestIds || m.requests[params.requestId].status != Pending
            case Some(AccessRequestHasExpired) => true
            case Some(ScopeEscalation) =>
              params.requestId in m.requestIds && exists x :: x in params.scopes && x !in m.requests[params.requestId].scopes
            case Some(OriginMismatch) => params.urlOrigin != params.origin
            case Some(_) => false
  {
  }

  /** The reply to a command call names the new command, or a condition that really failed. */
  lemma CommandReplies(m: Broker, now: int, ctx: nat, l: nat, call: CommandCall)
    requires Inv(m, now) && Settled(m, now) && IdsInHeap(m) && ctx < |m.contexts| && m.contexts[ctx].role == AgentRole
    ensures match BeginCommand(m, ctx, l, call, now).1
            case Done(c) => c == |m.commands| && MayCall(m, ctx, l, call, KindOf(call)) && RoomToRun(m, l, now)
            case Throw(InvalidParams) => (call.Snapshot? && !(1 <= call.maxNodes <= 500)) || (call.ScrollPage? && !(-2_000 <= call.deltaY <= 2_000))
            case Throw(LeaseNotFound) => l !in m.leaseIds || m.leases[l].session != ctx
            case Throw(LeaseNotActive) => l in m.leaseIds && m.leases[l].revokedAt.Some?
            case Throw(ScopeRequired) => l in m.leaseIds && exists x :: x in NeededScopes(call) && x !in m.leases[l].scopes
            case Throw(OriginChanged) => l in m.leaseIds && call.NavigateTo? && call.destination != m.leases[l].origin
            case Throw(BrowserDisconnected) => l in m.leaseIds && m.leases[l].browserInstanceId !in m.browsers
            case Throw(PolicyDenied(code)) => code == RateLimited && l in m.leaseIds && m.leases[l].policy.remainingUses == 0
            case Throw(LeaseConcurrencyLimit) => l in m.leaseIds && m.leases[l].inFlight == 2
            case Throw(LeaseRateLimit) =>
              l in m.leaseIds && m.leases[l].commandsInWindow >= 30 && now < m.leases[l].windowStartedAt + 60_000
            case Throw(UseLimitExhausted) => l in m.leaseIds && m.leases[l].policy.remainingUses == 0
            case Throw(_) => false
  {
    CallRefusalExactly(m, now, ctx, l, call);
    RefusalMeans(m, now, ctx, l, call);
    hide Settled, Inv, CommandRefusal, MayCall, CheckLease, ExecuteWithLease, RoomToRun, KindOf;
    if CommandRefusal(m, ctx, l, call, now) == None {
      UsedUpIsHeld(m, now, l);
      ExecuteReplies(m, l, call, now);
    }
  }

  lemma ExecuteReplies(m: Broker, l: nat, call: CommandCall, now: int)
    requires l < |m.leases| && 0 <= m.leases[l].policy.remainingUses && m.leases[l].inFlight <= 2
    requires if call.HighlightElement? || m.leases[l].policy.remainingUses > 0 then AuthorizeCommand(m, m.leases[l], call, now) == None
             else AuthorizeCommand(m, m.leases[l], call, now) == Some(Code.PolicyDenied(RateLimited))
    ensures match ExecuteWithLease(m, l, call, now).1
            case Done(c) => c == |m.commands| && RoomToRun(m, l, now)
            case Throw(BrowserDisconnected) => m.leases[l].browserInstanceId !in m.browsers
            case Throw(ScopeRequired) => exists x :: x in NeededScopes(call) && x !in m.leases[l].scopes
            case Throw(PolicyDenied(code)) => code == RateLimited && m.leases[l].policy.remainingUses == 0
            case Throw(LeaseConcurrencyLimit) => m.leases[l].inFlight == 2
            case Throw(LeaseRateLimit) => m.leases[l].commandsInWindow >= 30 && now < m.leases[l].windowStartedAt + 60_000
            case Throw(UseLimitExhausted) => m.leases[l].policy.remainingUses == 0
            case Throw(_) => false
  {
    AuthorizeCodes(m, m.leases[l], call, now);
    hide AuthorizeCommand, RevokeLease, KindOf;
  }

  lemma RefusalMeans(m: Broker, now: int, ctx: nat, l: nat, call: CommandCall)
    requires Settled(m, now) && IdsInHeap(m)
    ensures match CommandRefusal(m, ctx, l, call, now)
            case None => l in m.leaseIds
            case Some(InvalidParams) => (call.Snapshot? && !(1 <= call.maxNodes <= 500)) || (call.ScrollPage? && !(-2_000 <= call.deltaY <= 2_000))
            case Some(LeaseNotFound) => l !in m.leaseIds || m.leases[l].session != ctx
            case Some(LeaseNotActive) => l in m.leaseIds && m.leases[l].revokedAt.Some?
            case Some(ScopeRequired) => l in m.leaseIds && exists x :: x in NeededScopes(call) && x !in m.leases[l].scopes
            case Some(OriginChanged) => l in m.leaseIds && call.NavigateTo? && call.destination != m.leases[l].origin
            case _ => false
  {
    if l in m.leaseIds {
      assert CheckedLease(m.leases[l], now) == m.leases[l];
    }
  }

  lemma AuthorizeCodes(m: Broker, lease: Lease, call: CommandCall, now: int)
    ensures match AuthorizeCommand(m, lease, call, now)
            case None => true
            case Some(ScopeRequired) => PageHighlight !in lease.scopes && call.HighlightElement?
            case Some(PolicyDenied(_)) => !call.HighlightElement?
            case _ => false
  {
    hide EvaluatePolicy;
  }
}
