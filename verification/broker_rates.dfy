/** The exact side of the rate windows: a minute that starts where a window starts holds at most one limit. */
module BrokerRates {
  import opened Wrappers
  import opened Broker
  import opened FixedWindow
  import opened BrokerWindows
  import opened BrokerSteps
  import opened BrokerRuns

  // ------------------------------------------------------- what a step logs

  /** At most one command is admitted, now, and no admission is rewritten. */
  ghost predicate AdmitsNow(s: Broker, t: Broker, now: int) {
    && (forall c | 0 <= c < |s.commands| && c < |t.commands| ::
          t.commands[c].lease == s.commands[c].lease && t.commands[c].kind == s.commands[c].kind
          && t.commands[c].admittedAt == s.commands[c].admittedAt)
    && (|t.commands| == |s.commands| || (|t.commands| == |s.commands| + 1 && t.commands[|s.commands|].admittedAt == now))
  }

  /** At most one request is created, now; an open request window stays or is replaced when it is over. */
  ghost predicate CreatesNow(s: Broker, t: Broker, now: int) {
    && (|t.requests| == |s.requests| || (|t.requests| == |s.requests| + 1 && t.requests[|s.requests|].createdAt == now))
    && |s.contexts| <= |t.contexts|
    && WindowTurns(s.globalWindow, t.globalWindow)
    && (forall ctx | 0 <= ctx < |s.contexts| && s.contexts[ctx].window.Some? ::
          t.contexts[ctx].window.Some? && WindowTurns(s.contexts[ctx].window.value, t.contexts[ctx].window.value))
  }

  ghost predicate WindowTurns(before: Window, after: Window) {
    before.startedAt > 0 ==>
      after.startedAt == before.startedAt || after.startedAt >= before.startedAt + ACCESS_REQUEST_RATE_WINDOW_MS
  }

  lemma BeginAdmits(s: Broker, ctx: nat, l: nat, call: CommandCall, now: int)
    requires IdsInHeap(s)
    ensures AdmitsNow(s, BeginCommand(s, ctx, l, call, now).0, now)
    ensures CreatesNow(s, BeginCommand(s, ctx, l, call, now).0, now)
  {
    hide ScopesGranted, CallValid, LeaseActive, AuthorizeCommand, ReserveCommand;
  }

  /** Windows opened in the past do not start after now. */
  ghost predicate WindowsBegan(s: Broker, now: int) {
    && s.globalWindow.startedAt <= now
    && forall ctx | 0 <= ctx < |s.contexts| && s.contexts[ctx].window.Some? :: s.contexts[ctx].window.value.startedAt <= now
  }

  lemma InvBegan(s: Broker, now: int)
    requires Inv(s, now) && 0 < now
    ensures WindowsBegan(s, now)
  {
    forall ctx | 0 <= ctx < |s.contexts| && s.contexts[ctx].window.Some?
      ensures s.contexts[ctx].window.value.startedAt <= now
    {
      assert SessionWindow(s, ctx, now);
    }
  }

  lemma RequestCreates(s: Broker, ctx: nat, params: RequestParams, now: int)
    requires IdsInHeap(s) && ctx < |s.contexts| && WindowsBegan(s, now)
    ensures AdmitsNow(s, RequestAccess(s, ctx, params, now).0, now)
    ensures CreatesNow(s, RequestAccess(s, ctx, params, now).0, now)
  {
    hide ExpireRecords, PendingRefusal, RequestRoom, RequestParamsValid, IdsInHeap;
  }

  lemma GrantLogsNothing(s: Broker, ctx: nat, params: GrantParams, now: int)
    requires IdsInHeap(s) && ctx < |s.contexts|
    ensures var t := GrantAccess(s, ctx, params, now).0;
            AdmitsNow(s, t, now) && CreatesNow(s, t, now)
  {
    hide LeaseRoom, IssueCapability, GrantClaims;
  }

  lemma HandleLogs(s: Broker, e: Event, now: int)
    requires IdsInHeap(s) && IsCall(e) && Enabled(s, e) && WindowsBegan(s, now)
    ensures AdmitsNow(s, Handle(s, e, now), now)
    ensures CreatesNow(s, Handle(s, e, now), now)
  {
    hide ExpireRecords, RequestAccess, BeginCommand, GrantAccess, WindowsBegan;
    match e
    case ERequest(ctx, params) => RequestCreates(s, ctx, params, now);
    case EExecute(ctx, l, call) => BeginAdmits(s, ctx, l, call, now);
    case EGrant(ctx, params) => GrantLogsNothing(s, ctx, params, now);
    case _ =>
  }

  lemma ResumeLogs(s: Broker, e: Event, now: int)
    requires IdsInHeap(s) && !IsCall(e) && Enabled(s, e)
    ensures AdmitsNow(s, Resume(s, e, now), now)
    ensures CreatesNow(s, Resume(s, e, now), now)
  {
    hide IdsInHeap, BrowserReplied, RevokedLease, EndedRequest, RevokedStatus;
    if e.EBrowserReply? {
      ReplyLogs(s, e.c, e.answer, now);
    }
  }

  lemma ReplyLogs(s: Broker, c: nat, answer: BrowserAnswer, now: int)
    requires c < |s.commands| && s.commands[c].lease < |s.leases|
    ensures AdmitsNow(s, BrowserReplied(s, c, answer, now), now)
    ensures CreatesNow(s, BrowserReplied(s, c, answer, now), now)
  {
    hide LeaseActive, EgressRefusal, ExpiryReason, RevokedLease, EndedRequest, RevokedStatus;
  }

  lemma StepLogs(s: Broker, e: Event, clock: int, now: int)
    requires Inv(s, clock) && clock <= now && 0 < now
    ensures AdmitsNow(s, Step(s, e, now), now)
    ensures CreatesNow(s, Step(s, e, now), now)
  {
    LaterKeepsInv(s, clock, now);
    InvIds(s, now);
    hide Inv, Maintain, Handle, Resume, Enabled, IdsInHeap, IsCall, AdmitsNow, CreatesNow;
    if Enabled(s, e) {
      if IsCall(e) {
        CallLogs(s, e, now);
      } else {
        ResumeLogs(s, e, now);
      }
    } else {
      NothingLogged(s, now);
    }
  }

  lemma InvIds(s: Broker, now: int)
    requires Inv(s, now)
    ensures IdsInHeap(s)
  {
  }

  lemma NothingLogged(s: Broker, now: int)
    ensures AdmitsNow(s, s, now) && CreatesNow(s, s, now)
  {
  }

  lemma CallLogs(s: Broker, e: Event, now: int)
    requires IdsInHeap(s) && IsCall(e) && Enabled(s, e) && Inv(s, now) && 0 < now
    ensures AdmitsNow(s, Step(s, e, now), now)
    ensures CreatesNow(s, Step(s, e, now), now)
  {
    hide Inv, Moves, Handle, Resume, WindowsBegan, WindowTurns;
    var m := Maintain(s, now);
    MaintainReaches(s, now);
    InvBegan(m, now);
    HandleLogs(m, e, now);
    MaintainLogs(s, now);
  }

  lemma MaintainLogs(s: Broker, now: int)
    requires IdsInHeap(s)
    ensures var m := Maintain(s, now);
            && m.commands == s.commands && |m.requests| == |s.requests| && m.contexts == s.contexts && m.globalWindow == s.globalWindow
  {
  }

  // --------------------------------------------------------- window by window

  lemma AdmittedGrows(s: Broker, t: Broker, l: nat, now: int) returns (more: seq<int>)
    requires AdmitsNow(s, t, now)
    ensures more == [] || more == [now]
    ensures AdmittedAt(t.commands, l) == AdmittedAt(s.commands, l) + more
  {
    AdmittedSame(s.commands, t.commands[..|s.commands|], l);
    if |t.commands| == |s.commands| {
      assert t.commands[..|s.commands|] == t.commands;
      more := [];
    } else {
      var last := t.commands[|s.commands|];
      assert t.commands == t.commands[..|s.commands|] + [last];
      AdmittedAppend(t.commands[..|s.commands|], last, l);
      more := if last.lease == l then [now] else [];
    }
  }

  lemma CreatedGrows(s: Broker, t: Broker, session: Option<nat>, now: int) returns (more: seq<int>)
    requires CreatesNow(s, t, now) && Moves(s, t)
    ensures more == [] || more == [now]
    ensures CreatedAt(t.requests, session) == CreatedAt(s.requests, session) + more
  {
    var kept := t.requests[..|s.requests|];
    forall r | 0 <= r < |s.requests| ensures kept[r].session == s.requests[r].session && kept[r].createdAt == s.requests[r].createdAt {
      assert RequestMoves(s.requests[r], t.requests[r]);
    }
    CreatedSame(s.requests, kept, session);
    if |t.requests| == |s.requests| {
      assert kept == t.requests;
      more := [];
    } else {
      var last := t.requests[|s.requests|];
      assert t.requests == kept + [last];
      CreatedAppend(kept, last, session);
      more := if session == None || session.value == last.session then [now] else [];
    }
  }

  /** Whenever a window of a lease began, its minute holds at most 30 admitted commands, however the run goes on. */
  lemma {:induction false} CommandWindowHolds(x: Execution, i: nat, j: nat, l: nat)
    requires Behaves(x) && i <= j < |x.states| && l < |x.states[i].leases|
    ensures var s, t, limit, width := x.states[i], x.states[j], LEASE_COMMANDS_PER_WINDOW, LEASE_COMMAND_WINDOW_MS;
            l < |t.leases| && Kept(AdmittedAt(t.commands, l), t.leases[l].windowStartedAt, s.leases[l].windowStartedAt, limit, width)
    decreases j
  {
    var limit, width := LEASE_COMMANDS_PER_WINDOW, LEASE_COMMAND_WINDOW_MS;
    var w, t, clock := x.states[i].leases[l].windowStartedAt, x.states[j], Clock(x, j);
    RunKeepsInv(x, j);
    hide Step, Inv, Kept, CountIn, Moves, AdmitsNow, CreatesNow, AdmittedAt, Accounts, Start;
    if i == j {
      InvLeaseWindow(t, clock, l);
      WindowHolds(AdmittedAt(t.commands, l), w, t.leases[l].commandsInWindow, limit, width, clock);
    } else {
      var s, now := x.states[j - 1], x.events[j - 1].now;
      CommandWindowHolds(x, i, j - 1, l);
      RunKeepsInv(x, j - 1);
      assert StepsTo(x, j - 1);
      StepReaches(s, x.events[j - 1].event, Clock(x, j - 1), now);
      StepLogs(s, x.events[j - 1].event, Clock(x, j - 1), now);
      InvLeaseWindow(s, Clock(x, j - 1), l);
      LeaseTurns(s, t, l);
      InvLeaseWindow(t, now, l);
      var more := AdmittedGrows(s, t, l, now);
      KeptOn(AdmittedAt(s.commands, l), s.leases[l].windowStartedAt, w, limit, width, now, more,
             t.leases[l].windowStartedAt, t.leases[l].commandsInWindow);
    }
  }

  lemma InvLeaseWindow(s: Broker, clock: int, l: nat)
    requires Inv(s, clock) && l < |s.leases|
    ensures s.leases[l].windowStartedAt <= clock
    ensures Accounts(AdmittedAt(s.commands, l), s.leases[l].windowStartedAt, s.leases[l].commandsInWindow,
                     LEASE_COMMANDS_PER_WINDOW, LEASE_COMMAND_WINDOW_MS, clock)
  {
    assert LeaseWindow(s, l, clock);
  }

  lemma LeaseTurns(s: Broker, t: Broker, l: nat)
    requires Moves(s, t) && l < |s.leases|
    ensures l < |t.leases|
    ensures var before, after := s.leases[l].windowStartedAt, t.leases[l].windowStartedAt;
            after == before || after >= before + LEASE_COMMAND_WINDOW_MS
  {
    assert LeaseMoves(s.leases[l], t.leases[l]);
  }

  /** The window that counts the requests of a session, or of all sessions, if it was ever opened. */
  function OpenWindow(s: Broker, session: Option<nat>): Option<Window> {
    match session
    case None => if s.globalWindow.startedAt > 0 then Some(s.globalWindow) else None
    case Some(ctx) => if ctx < |s.contexts| then s.contexts[ctx].window else None
  }

  function RequestLimit(session: Option<nat>): nat {
    if session == None then ACCESS_REQUESTS_GLOBAL_WINDOW else ACCESS_REQUESTS_PER_SESSION_WINDOW
  }

  lemma InvRequestWindow(s: Broker, clock: int, session: Option<nat>)
    requires Inv(s, clock) && OpenWindow(s, session).Some?
    ensures var window := OpenWindow(s, session).value;
            && 0 < window.startedAt <= clock
            && Accounts(CreatedAt(s.requests, session), window.startedAt, window.count, RequestLimit(session),
                        ACCESS_REQUEST_RATE_WINDOW_MS, clock)
  {
    if session.Some? {
      assert SessionWindow(s, session.value, clock);
    }
  }

  lemma RequestTurns(s: Broker, t: Broker, session: Option<nat>, now: int)
    requires CreatesNow(s, t, now) && OpenWindow(s, session).Some? && OpenWindow(s, session).value.startedAt > 0
    ensures OpenWindow(t, session).Some?
    ensures var before, after := OpenWindow(s, session).value.startedAt, OpenWindow(t, session).value.startedAt;
            after == before || after >= before + ACCESS_REQUEST_RATE_WINDOW_MS
  {
  }

  /**
   * Whenever a request window began, its minute holds at most 20 created requests of that session, or 120
   * of all sessions, however the run goes on.
   */
  lemma {:induction false} RequestWindowHolds(x: Execution, i: nat, j: nat, session: Option<nat>)
    requires Behaves(x) && i <= j < |x.states| && OpenWindow(x.states[i], session).Some?
    ensures var s, t, width := x.states[i], x.states[j], ACCESS_REQUEST_RATE_WINDOW_MS;
            && OpenWindow(t, session).Some?
            && Kept(CreatedAt(t.requests, session), OpenWindow(t, session).value.startedAt,
                    OpenWindow(s, session).value.startedAt, RequestLimit(session), width)
    decreases j
  {
    var limit, width := RequestLimit(session), ACCESS_REQUEST_RATE_WINDOW_MS;
    var w, t, clock := OpenWindow(x.states[i], session).value.startedAt, x.states[j], Clock(x, j);
    RunKeepsInv(x, j);
    hide Step, Inv, Kept, CountIn, Moves, AdmitsNow, CreatesNow, CreatedAt, Accounts, OpenWindow, RequestLimit;
    if i == j {
      InvRequestWindow(t, clock, session);
      WindowHolds(CreatedAt(t.requests, session), w, OpenWindow(t, session).value.count, limit, width, clock);
    } else {
      var s, now := x.states[j - 1], x.events[j - 1].now;
      RequestWindowHolds(x, i, j - 1, session);
      RunKeepsInv(x, j - 1);
      assert StepsTo(x, j - 1);
      StepReaches(s, x.events[j - 1].event, Clock(x, j - 1), now);
      StepLogs(s, x.events[j - 1].event, Clock(x, j - 1), now);
      InvRequestWindow(s, Clock(x, j - 1), session);
      RequestTurns(s, t, session, now);
      InvRequestWindow(t, now, session);
      var more := CreatedGrows(s, t, session, now);
      KeptOn(CreatedAt(s.requests, session), OpenWindow(s, session).value.startedAt, w, limit, width, now, more,
             OpenWindow(t, session).value.startedAt, OpenWindow(t, session).value.count);
    }
  }
}
