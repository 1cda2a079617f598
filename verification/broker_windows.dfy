/** The rate windows of leases, sessions and the whole broker, against the history of what they admitted. */
module BrokerWindows {
  import opened Wrappers
  import opened Broker
  import opened FixedWindow

  // ------------------------------------------------------- lease commands

  /** When the commands of a lease were admitted. */
  function AdmittedAt(commands: seq<Command>, l: nat): seq<int> {
    if commands == [] then []
    else
      var last := commands[|commands| - 1];
      AdmittedAt(commands[..|commands| - 1], l) + if last.lease == l then [last.admittedAt] else []
  }

  lemma AdmittedAppend(commands: seq<Command>, command: Command, l: nat)
    ensures AdmittedAt(commands + [command], l) == AdmittedAt(commands, l) + if command.lease == l then [command.admittedAt] else []
  {
    assert (commands + [command])[..|commands|] == commands;
  }

  /** Admission times ignore everything that happens to a command later. */
  lemma {:induction false} AdmittedSame(commands: seq<Command>, after: seq<Command>, l: nat)
    requires |after| == |commands|
    requires forall c | 0 <= c < |commands| :: after[c].lease == commands[c].lease && after[c].admittedAt == commands[c].admittedAt
    ensures AdmittedAt(after, l) == AdmittedAt(commands, l)
  {
    if commands != [] {
      AdmittedSame(commands[..|commands| - 1], after[..|after| - 1], l);
    }
  }

  lemma {:induction false} AdmittedNone(commands: seq<Command>, l: nat)
    requires forall c | 0 <= c < |commands| :: commands[c].lease != l
    ensures AdmittedAt(commands, l) == []
  {
    if commands != [] {
      AdmittedNone(commands[..|commands| - 1], l);
    }
  }

  ghost predicate LeaseWindow(s: Broker, l: nat, clock: int)
    requires l < |s.leases|
  {
    Accounts(AdmittedAt(s.commands, l), s.leases[l].windowStartedAt, s.leases[l].commandsInWindow,
             LEASE_COMMANDS_PER_WINDOW, LEASE_COMMAND_WINDOW_MS, clock)
  }

  ghost predicate LeaseWindows(s: Broker, clock: int) {
    && (forall c | 0 <= c < |s.commands| :: s.commands[c].lease < |s.leases|)
    && (forall l | 0 <= l < |s.leases| :: LeaseWindow(s, l, clock))
  }

  lemma LaterKeepsLeaseWindows(s: Broker, clock: int, now: int)
    requires LeaseWindows(s, clock) && clock <= now
    ensures LeaseWindows(s, now)
  {
    forall l | 0 <= l < |s.leases| ensures LeaseWindow(s, l, now) {
      assert LeaseWindow(s, l, clock);
      var lease := s.leases[l];
      Idle(AdmittedAt(s.commands, l), lease.windowStartedAt, lease.commandsInWindow, LEASE_COMMANDS_PER_WINDOW,
           LEASE_COMMAND_WINDOW_MS, clock, lease.commandsInWindow, now);
    }
  }

  /** A step that admits no command and touches no counter. */
  lemma QuietKeepsLeaseWindows(s: Broker, after: Broker, now: int)
    requires LeaseWindows(s, now)
    requires after.commands == s.commands && |after.leases| == |s.leases|
    requires forall l | 0 <= l < |s.leases| ::
               after.leases[l].windowStartedAt == s.leases[l].windowStartedAt && after.leases[l].commandsInWindow == s.leases[l].commandsInWindow
    ensures LeaseWindows(after, now)
  {
    forall l | 0 <= l < |after.leases| ensures LeaseWindow(after, l, now) {
      assert LeaseWindow(s, l, now);
    }
  }

  lemma MoveKeepsLeaseWindows(s: Broker, c: nat, stage: Stage, now: int)
    requires LeaseWindows(s, now) && c < |s.commands|
    ensures LeaseWindows(PutStage(s, c, stage), now)
  {
    var after := PutStage(s, c, stage);
    forall l | 0 <= l < |after.leases| ensures LeaseWindow(after, l, now) {
      assert LeaseWindow(s, l, now);
      AdmittedSame(s.commands, after.commands, l);
    }
  }

  lemma AddLeaseKeepsLeaseWindows(s: Broker, r: nat, lease: Lease, now: int)
    requires LeaseWindows(s, now) && r < |s.requests|
    requires lease.windowStartedAt == now && lease.commandsInWindow == 0
    ensures LeaseWindows(AddLease(s, r, lease, now), now)
  {
    var after := AddLease(s, r, lease, now);
    forall l | 0 <= l < |after.leases| ensures LeaseWindow(after, l, now) {
      if l < |s.leases| {
        assert LeaseWindow(s, l, now);
      } else {
        AdmittedNone(s.commands, l);
      }
    }
  }

  /** Rolling the window of a lease over, or leaving it, keeps its account. */
  lemma RolledWindowAccounts(s: Broker, l: nat, now: int)
    requires LeaseWindows(s, now) && l < |s.leases|
    ensures var rolled := RolledWindow(s.leases[l], now);
            Accounts(AdmittedAt(s.commands, l), rolled.windowStartedAt, rolled.commandsInWindow,
                     LEASE_COMMANDS_PER_WINDOW, LEASE_COMMAND_WINDOW_MS, now)
  {
    assert LeaseWindow(s, l, now);
    var lease := s.leases[l];
    if now - lease.windowStartedAt >= LEASE_COMMAND_WINDOW_MS {
      Reopen(AdmittedAt(s.commands, l), lease.windowStartedAt, lease.commandsInWindow, LEASE_COMMANDS_PER_WINDOW,
             LEASE_COMMAND_WINDOW_MS, now, now);
    }
  }

  /** A refused command may still have rolled the window over. */
  lemma RefusedKeepsLeaseWindows(s: Broker, l: nat, now: int)
    requires LeaseWindows(s, now) && l < |s.leases|
    requires ReserveCommand(s.leases[l], now).1.Some?
    ensures LeaseWindows(PutLease(s, l, ReserveCommand(s.leases[l], now).0), now)
  {
    var after := PutLease(s, l, ReserveCommand(s.leases[l], now).0);
    RolledWindowAccounts(s, l, now);
    forall k | 0 <= k < |after.leases| ensures LeaseWindow(after, k, now) {
      assert LeaseWindow(s, k, now);
    }
  }

  lemma AdmitKeepsLeaseWindows(s: Broker, l: nat, kind: Kind, now: int)
    requires LeaseWindows(s, now) && l < |s.leases|
    requires ReserveCommand(s.leases[l], now).1 == None
    ensures LeaseWindows(AddCommand(PutLease(s, l, ReserveCommand(s.leases[l], now).0), Command(l, kind, now, AwaitBrowser)), now)
  {
    var command := Command(l, kind, now, AwaitBrowser);
    var after := AddCommand(PutLease(s, l, ReserveCommand(s.leases[l], now).0), command);
    RolledWindowAccounts(s, l, now);
    var rolled := RolledWindow(s.leases[l], now);
    Admit(AdmittedAt(s.commands, l), rolled.windowStartedAt, rolled.commandsInWindow, LEASE_COMMANDS_PER_WINDOW,
          LEASE_COMMAND_WINDOW_MS, now, now);
    forall k | 0 <= k < |after.leases| ensures LeaseWindow(after, k, now) {
      assert LeaseWindow(s, k, now);
      AdmittedAppend(s.commands, command, k);
    }
  }

  // ------------------------------------------------------ access requests

  /** When the requests of a session, or of all sessions, were created. */
  function CreatedAt(requests: seq<AccessRequest>, session: Option<nat>): seq<int> {
    if requests == [] then []
    else
      var last := requests[|requests| - 1];
      CreatedAt(requests[..|requests| - 1], session)
      + if session == None || session.value == last.session then [last.createdAt] else []
  }

  lemma CreatedAppend(requests: seq<AccessRequest>, request: AccessRequest, session: Option<nat>)
    ensures CreatedAt(requests + [request], session) ==
            CreatedAt(requests, session) + if session == None || session.value == request.session then [request.createdAt] else []
  {
    assert (requests + [request])[..|requests|] == requests;
  }

  /** Creation times ignore everything that happens to a request later. */
  lemma {:induction false} CreatedSame(requests: seq<AccessRequest>, after: seq<AccessRequest>, session: Option<nat>)
    requires |after| == |requests|
    requires forall r | 0 <= r < |requests| :: after[r].session == requests[r].session && after[r].createdAt == requests[r].createdAt
    ensures CreatedAt(after, session) == CreatedAt(requests, session)
  {
    if requests != [] {
      CreatedSame(requests[..|requests| - 1], after[..|after| - 1], session);
    }
  }

  /** A window that was never opened has admitted nothing. */
  ghost predicate WindowOk(log: seq<int>, window: Window, limit: nat, clock: int) {
    if window.startedAt == 0 then log == [] && window.count == 0
    else window.startedAt > 0 && Accounts(log, window.startedAt, window.count, limit, ACCESS_REQUEST_RATE_WINDOW_MS, clock)
  }

  ghost predicate SessionWindow(s: Broker, ctx: nat, clock: int)
    requires ctx < |s.contexts|
  {
    var log := CreatedAt(s.requests, Some(ctx));
    match s.contexts[ctx].window
    case None => log == []
    case Some(window) => window.startedAt > 0 && WindowOk(log, window, ACCESS_REQUESTS_PER_SESSION_WINDOW, clock)
  }

  ghost predicate RequestWindows(s: Broker, clock: int) {
    && (forall r | 0 <= r < |s.requests| :: s.requests[r].session < |s.contexts|)
    && WindowOk(CreatedAt(s.requests, None), s.globalWindow, ACCESS_REQUESTS_GLOBAL_WINDOW, clock)
    && (forall ctx | 0 <= ctx < |s.contexts| :: SessionWindow(s, ctx, clock))
  }

  lemma LaterKeepsWindow(log: seq<int>, window: Window, limit: nat, clock: int, now: int)
    requires WindowOk(log, window, limit, clock) && clock <= now
    ensures WindowOk(log, window, limit, now)
  {
    if window.startedAt != 0 {
      Idle(log, window.startedAt, window.count, limit, ACCESS_REQUEST_RATE_WINDOW_MS, clock, window.count, now);
    }
  }

  lemma LaterKeepsRequestWindows(s: Broker, clock: int, now: int)
    requires RequestWindows(s, clock) && clock <= now
    ensures RequestWindows(s, now)
  {
    LaterKeepsWindow(CreatedAt(s.requests, None), s.globalWindow, ACCESS_REQUESTS_GLOBAL_WINDOW, clock, now);
    forall ctx | 0 <= ctx < |s.contexts| ensures SessionWindow(s, ctx, now) {
      assert SessionWindow(s, ctx, clock);
      if s.contexts[ctx].window.Some? {
        LaterKeepsWindow(CreatedAt(s.requests, Some(ctx)), s.contexts[ctx].window.value, ACCESS_REQUESTS_PER_SESSION_WINDOW, clock, now);
      }
    }
  }

  /** A step that creates no request and touches no request window; new contexts start without one. */
  lemma QuietKeepsRequestWindows(s: Broker, after: Broker, now: int)
    requires RequestWindows(s, now)
    requires |after.requests| == |s.requests| && |after.contexts| >= |s.contexts| && after.globalWindow == s.globalWindow
    requires forall r | 0 <= r < |s.requests| ::
               after.requests[r].session == s.requests[r].session && after.requests[r].createdAt == s.requests[r].createdAt
    requires forall ctx | 0 <= ctx < |s.contexts| :: after.contexts[ctx].window == s.contexts[ctx].window
    requires forall ctx | |s.contexts| <= ctx < |after.contexts| :: after.contexts[ctx].window == None
    ensures RequestWindows(after, now)
  {
    CreatedSame(s.requests, after.requests, None);
    forall ctx | 0 <= ctx < |after.contexts| ensures SessionWindow(after, ctx, now) {
      CreatedSame(s.requests, after.requests, Some(ctx));
      if ctx < |s.contexts| {
        assert SessionWindow(s, ctx, now);
      } else {
        CreatedNone(s.requests, ctx);
      }
    }
  }

  lemma {:induction false} CreatedNone(requests: seq<AccessRequest>, session: nat)
    requires forall r | 0 <= r < |requests| :: requests[r].session != session
    ensures CreatedAt(requests, Some(session)) == []
  {
    if requests != [] {
      CreatedNone(requests[..|requests| - 1], session);
    }
  }

  lemma ResetKeepsWindow(log: seq<int>, window: Window, limit: nat, now: int)
    requires WindowOk(log, window, limit, now) && 0 < now
    ensures WindowOk(log, ResetIfNeeded(window, now), limit, now) && ResetIfNeeded(window, now).startedAt > 0
  {
    if window.startedAt != 0 && now - window.startedAt >= ACCESS_REQUEST_RATE_WINDOW_MS {
      Reopen(log, window.startedAt, window.count, limit, ACCESS_REQUEST_RATE_WINDOW_MS, now, now);
    }
  }

  /** Both windows have just been charged for one request that does not exist yet. */
  ghost predicate RateReserved(s: Broker, ctx: nat, now: int)
    requires ctx < |s.contexts|
  {
    && s.contexts[ctx].window.Some?
    && var session, global := s.contexts[ctx].window.value, s.globalWindow;
       && 0 < session.startedAt <= now < session.startedAt + ACCESS_REQUEST_RATE_WINDOW_MS
       && 0 < global.startedAt <= now < global.startedAt + ACCESS_REQUEST_RATE_WINDOW_MS
       && 0 < session.count <= ACCESS_REQUESTS_PER_SESSION_WINDOW && 0 < global.count <= ACCESS_REQUESTS_GLOBAL_WINDOW
       && WindowOk(CreatedAt(s.requests, Some(ctx)), session.(count := session.count - 1), ACCESS_REQUESTS_PER_SESSION_WINDOW, now)
       && WindowOk(CreatedAt(s.requests, None), global.(count := global.count - 1), ACCESS_REQUESTS_GLOBAL_WINDOW, now)
  }

  lemma ChargeKeepsWindow(log: seq<int>, window: Window, limit: nat, now: int)
    requires WindowOk(log, window, limit, now) && window.startedAt > 0 && window.count < limit
    ensures WindowOk(log, window.(count := window.count + 1), limit, now)
  {
    Idle(log, window.startedAt, window.count, limit, ACCESS_REQUEST_RATE_WINDOW_MS, now, window.count + 1, now);
  }

  /** Replacing the windows of one context and of the broker by windows that account for the same history. */
  lemma PutWindowsKeeps(s: Broker, ctx: nat, session: Window, global: Window, now: int)
    requires RequestWindows(s, now) && ctx < |s.contexts|
    requires session.startedAt > 0 && WindowOk(CreatedAt(s.requests, Some(ctx)), session, ACCESS_REQUESTS_PER_SESSION_WINDOW, now)
    requires WindowOk(CreatedAt(s.requests, None), global, ACCESS_REQUESTS_GLOBAL_WINDOW, now)
    ensures RequestWindows(PutWindows(s, ctx, session, global), now)
  {
    var after := PutWindows(s, ctx, session, global);
    forall k | 0 <= k < |after.contexts| ensures SessionWindow(after, k, now) {
      assert SessionWindow(s, k, now);
    }
  }

  lemma ReserveKeepsRequestWindows(s: Broker, ctx: nat, now: int)
    requires RequestWindows(s, now) && ctx < |s.contexts| && 0 < now
    ensures RequestWindows(ReserveRate(s, ctx, now).0, now)
    ensures ReserveRate(s, ctx, now).1 == None ==> RateReserved(ReserveRate(s, ctx, now).0, ctx, now)
  {
    assert SessionWindow(s, ctx, now);
    var own, all := CreatedAt(s.requests, Some(ctx)), CreatedAt(s.requests, None);
    var kept := s.contexts[ctx].window;
    var session := if kept.Some? then ResetIfNeeded(kept.value, now) else Window(now, 0);
    var global := ResetIfNeeded(s.globalWindow, now);
    ResetKeepsWindow(all, s.globalWindow, ACCESS_REQUESTS_GLOBAL_WINDOW, now);
    if kept.Some? {
      ResetKeepsWindow(own, kept.value, ACCESS_REQUESTS_PER_SESSION_WINDOW, now);
    }
    assert WindowOk(own, session, ACCESS_REQUESTS_PER_SESSION_WINDOW, now);
    assert session.startedAt <= now < session.startedAt + ACCESS_REQUEST_RATE_WINDOW_MS;
    assert global.startedAt <= now < global.startedAt + ACCESS_REQUEST_RATE_WINDOW_MS;
    hide ResetIfNeeded, WindowOk, RequestWindows, SessionWindow, CreatedAt;
    PutWindowsKeeps(s, ctx, session, global, now);
    if session.count < ACCESS_REQUESTS_PER_SESSION_WINDOW && global.count < ACCESS_REQUESTS_GLOBAL_WINDOW {
      ChargeKeepsWindow(own, session, ACCESS_REQUESTS_PER_SESSION_WINDOW, now);
      ChargeKeepsWindow(all, global, ACCESS_REQUESTS_GLOBAL_WINDOW, now);
      PutWindowsKeeps(s, ctx, session.(count := session.count + 1), global.(count := global.count + 1), now);
    }
  }

  /** A request created in the same segment that reserved its rate. */
  lemma CreateKeepsRequestWindows(s: Broker, ctx: nat, request: AccessRequest, now: int)
    requires RequestWindows(s, now) && ctx < |s.contexts| && RateReserved(s, ctx, now)
    requires request.session == ctx && request.createdAt == now
    ensures RequestWindows(AddRequest(s, request), now)
  {
    var after := AddRequest(s, request);
    var session, global := s.contexts[ctx].window.value, s.globalWindow;
    var width := ACCESS_REQUEST_RATE_WINDOW_MS;
    Admit(CreatedAt(s.requests, None), global.startedAt, global.count - 1, ACCESS_REQUESTS_GLOBAL_WINDOW, width, now, now);
    Admit(CreatedAt(s.requests, Some(ctx)), session.startedAt, session.count - 1, ACCESS_REQUESTS_PER_SESSION_WINDOW, width, now, now);
    CreatedAppend(s.requests, request, None);
    forall k | 0 <= k < |after.contexts| ensures SessionWindow(after, k, now) {
      assert SessionWindow(s, k, now);
      CreatedAppend(s.requests, request, Some(k));
    }
  }
}
