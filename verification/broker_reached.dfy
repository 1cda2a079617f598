/** Runs that reach the limits: full doubled windows, and the eviction of a request whose lease lives on. */
module BrokerReached {
  import opened Wrappers
  import opened Policy
  import opened Broker
  import opened FixedWindow
  import opened BrokerWindows
  import opened BrokerBounds
  import opened BrokerSteps
  import opened BrokerRuns
  import opened BrokerRates
  import opened BrokerProperties

  ghost predicate Ends(x: Execution, s: Broker, clock: int) {
    Behaves(x) && x.states[|x.events|] == s && Clock(x, |x.events|) == clock
  }

  /** Some run ends in this state at this time. */
  ghost predicate Reached(s: Broker, clock: int) {
    exists x: Execution :: Ends(x, s, clock)
  }

  lemma Onward(s: Broker, clock: int, e: Event, now: int)
    requires Reached(s, clock) && clock <= now && 0 < now
    ensures Reached(Step(s, e, now), now)
  {
    hide Step, Start;
    var x :| Ends(x, s, clock);
    var y := Execution(x.secret, x.states + [Step(s, e, now)], x.events + [Timed(now, e)]);
    forall i: nat | i < |y.events| ensures StepsTo(y, i) {
      assert i < |x.events| ==> StepsTo(x, i);
    }
    assert Timely(y.events);
    assert Ends(y, Step(s, e, now), now);
  }

  lemma ReachedInv(s: Broker, clock: int)
    requires Reached(s, clock)
    ensures Inv(s, clock) && IdsInHeap(s)
  {
    var x :| Ends(x, s, clock);
    RunKeepsInv(x, |x.events|);
    hide Behaves;
  }

  lemma ReachedStart(secret: nat)
    ensures Reached(Start(secret), 0)
  {
    assert Ends(Execution(secret, [Start(secret)], []), Start(secret), 0);
  }

  // ------------------------------------------------------------- calm states

  /** Nothing expires or is forgotten at this time, and context 0 is a browser. */
  ghost predicate Calm(s: Broker, now: int) {
    && IdsInHeap(s) && 0 < now <= TERMINAL_RECORD_RETENTION_MS
    && IsBrowser(s, 0)
    && (forall r | 0 <= r < |s.requests| ::
          if s.requests[r].status == Pending then now < s.requests[r].expiresAt
          else s.requests[r].terminalAt.Some? && 0 < s.requests[r].terminalAt.value)
    && (forall l | 0 <= l < |s.leases| :: LeaseActive(s.leases[l], now))
  }

  ghost predicate NonePending(s: Broker) {
    forall r | 0 <= r < |s.requests| :: s.requests[r].status != Pending
  }

  lemma {:induction false} NoRequestExpires(s: Broker, ids: seq<nat>, now: int)
    requires Calm(s, now) && Within(ids, |s.requests|)
    ensures ExpireRequests(s, ids, now) == s
    decreases |ids|
  {
    if ids != [] {
      NoRequestExpires(s, ids[1..], now);
    }
  }

  lemma {:induction false} NoLeaseExpires(s: Broker, ids: seq<nat>, now: int)
    requires Calm(s, now) && Within(ids, |s.leases|)
    ensures ExpireLeases(s, ids, now) == s
    decreases |ids|
  {
    if ids != [] {
      NoLeaseExpires(s, ids[1..], now);
    }
  }

  lemma {:induction false} NoRequestForgotten(requests: seq<AccessRequest>, ids: seq<nat>, cutoff: int)
    requires Within(ids, |requests|)
    requires forall r | 0 <= r < |requests| :: !RequestRetired(requests[r], cutoff)
    ensures KeepRequests(requests, ids, cutoff) == ids
    decreases |ids|
  {
    hide RequestRetired;
    if ids != [] {
      NoRequestForgotten(requests, ids[1..], cutoff);
    }
  }

  lemma {:induction false} NoLeaseForgotten(leases: seq<Lease>, ids: seq<nat>, cutoff: int)
    requires Within(ids, |leases|)
    requires forall l | 0 <= l < |leases| :: !LeaseRetired(leases[l], cutoff)
    ensures KeepLeases(leases, ids, cutoff) == ids
    decreases |ids|
  {
    hide LeaseRetired;
    if ids != [] {
      NoLeaseForgotten(leases, ids[1..], cutoff);
    }
  }

  /** Maintenance of a calm state only moves the time of the next maintenance. */
  lemma CalmMaintained(s: Broker, now: int)
    requires Calm(s, now)
    ensures ExpireRecords(s, now) == s
    ensures Maintain(s, now) == s.(nextMaintenanceAt := Maintain(s, now).nextMaintenanceAt)
    ensures Calm(Maintain(s, now), now)
  {
    NoRequestExpires(s, s.requestIds, now);
    NoLeaseExpires(s, s.leaseIds, now);
    NoRequestForgotten(s.requests, s.requestIds, now - TERMINAL_RECORD_RETENTION_MS);
    NoLeaseForgotten(s.leases, s.leaseIds, now - TERMINAL_RECORD_RETENTION_MS);
  }

  // ------------------------------------------------------------ one request

  function SessionAt(s: Broker, ctx: nat, now: int): Window
    requires ctx < |s.contexts|
  {
    if s.contexts[ctx].window.Some? then ResetIfNeeded(s.contexts[ctx].window.value, now) else Window(now, 0)
  }

  function GlobalAt(s: Broker, now: int): Window {
    ResetIfNeeded(s.globalWindow, now)
  }

  const ASK := RequestParams([PageHighlight], None)

  lemma NoneRefused(s: Broker, ctx: nat, now: int)
    requires Inv(s, now) && NonePending(s) && IdsInHeap(s)
    ensures PendingRefusal(s, ctx) == None
  {
    CountsAreTrue(s, ctx);
    assert PendingSet(s.requests) == {};
    assert SessionPendingSet(s.requests, ctx) == {};
  }

  /** The state after an admitted request. */
  function AskedState(s: Broker, ctx: nat, now: int, next: int): Broker
    requires IdsInHeap(s) && ctx < |s.contexts|
  {
    var session, global := SessionAt(s, ctx, now), GlobalAt(s, now);
    s.(requests := s.requests + [NewRequest(s, ctx, ASK, now)],
       requestIds := RequestRoom(s).0 + [|s.requests|],
       contexts := s.contexts[ctx := s.contexts[ctx].(window := Some(session.(count := session.count + 1)))],
       globalWindow := global.(count := global.count + 1),
       nextMaintenanceAt := next)
  }

  /** An agent whose windows have room asks for access, while no other request is pending. */
  lemma Asks(s: Broker, clock: int, ctx: nat, now: int) returns (t: Broker)
    requires Reached(s, clock) && clock <= now && Calm(s, now) && NonePending(s) && IsAgent(s, ctx)
    requires SessionAt(s, ctx, now).count < ACCESS_REQUESTS_PER_SESSION_WINDOW && GlobalAt(s, now).count < ACCESS_REQUESTS_GLOBAL_WINDOW
    ensures Reached(t, now) && t == AskedState(s, ctx, now, t.nextMaintenanceAt)
  {
    hide Step, Inv, Maintain, PendingRefusal, RequestRoom, NonePending, Reached, Calm, ExpireRecords;
    CalmIds(s, now);
    t := Step(s, ERequest(ctx, ASK), now);
    Onward(s, clock, ERequest(ctx, ASK), now);
    AsksStep(s, clock, ctx, now);
  }

  lemma AsksStep(s: Broker, clock: int, ctx: nat, now: int)
    requires Reached(s, clock) && clock <= now && Calm(s, now) && NonePending(s) && IsAgent(s, ctx)
    requires SessionAt(s, ctx, now).count < ACCESS_REQUESTS_PER_SESSION_WINDOW && GlobalAt(s, now).count < ACCESS_REQUESTS_GLOBAL_WINDOW
    ensures var t := Step(s, ERequest(ctx, ASK), now);
            t == AskedState(s, ctx, now, t.nextMaintenanceAt)
  {
    hide Inv, Maintain, PendingRefusal, RequestRoom, Reached, Calm, ExpireRecords;
    CalmIds(s, now);
    var m := Maintain(s, now);
    CalmMaintained(s, now);
    CalmMaintained(m, now);
    ReachedInv(s, clock);
    LaterKeepsInv(s, clock, now);
    MaintainReaches(s, now);
    ReserveRateReaches(m, ctx, now);
    var reserved := ReserveRate(m, ctx, now).0;
    NoneRefused(reserved, ctx, now);
    RoomAvailable(reserved, now);
    SameRoom(s, reserved);
    assert Step(s, ERequest(ctx, ASK), now) == RequestAccess(m, ctx, ASK, now).0;
  }

  lemma CalmIds(s: Broker, now: int)
    requires Calm(s, now)
    ensures IdsInHeap(s) && 0 < now
  {
  }

  lemma SameRoom(s: Broker, t: Broker)
    requires IdsInHeap(s) && t.requests == s.requests && t.requestIds == s.requestIds && IdsInHeap(t)
    ensures RequestRoom(t) == RequestRoom(s)
  {
  }

  /** The state after that request was denied. */
  function RoundState(s: Broker, ctx: nat, now: int, next: int): Broker
    requires IdsInHeap(s) && ctx < |s.contexts|
  {
    var t := AskedState(s, ctx, now, next);
    PutRequest(t, |s.requests|, EndedRequest(NewRequest(s, ctx, ASK, now), Denied, now))
  }

  /** A request is created and denied at once, which leaves the broker calm with nothing pending. */
  lemma Rounds(s: Broker, clock: int, ctx: nat, now: int) returns (t: Broker)
    requires Reached(s, clock) && clock <= now && Calm(s, now) && NonePending(s) && IsAgent(s, ctx)
    requires SessionAt(s, ctx, now).count < ACCESS_REQUESTS_PER_SESSION_WINDOW && GlobalAt(s, now).count < ACCESS_REQUESTS_GLOBAL_WINDOW
    ensures Reached(t, now) && Calm(t, now) && NonePending(t)
    ensures t == RoundState(s, ctx, now, t.nextMaintenanceAt)
  {
    hide Inv, Reached, Calm, NonePending, Step, RequestRoom, IdsInHeap, SessionAt, GlobalAt, Dedup;
    CalmIds(s, now);
    var asked := Asks(s, clock, ctx, now);
    ReachedInv(asked, now);
    var r := |s.requests|;
    AskedCalm(s, ctx, now, asked.nextMaintenanceAt);
    t := Step(asked, EDeny(0, r), now);
    assert asked.requestIds[|asked.requestIds| - 1] == r;
    DeniesStep(asked, r, now);
    DeniedCalm(asked, r, now, t.nextMaintenanceAt);
    Onward(asked, now, EDeny(0, r), now);
  }

  /** The state after a denial. */
  function DeniedState(s: Broker, r: nat, now: int, next: int): Broker
    requires r < |s.requests|
  {
    PutRequest(s, r, EndedRequest(s.requests[r], Denied, now)).(nextMaintenanceAt := next)
  }

  lemma AskedCalm(s: Broker, ctx: nat, now: int, next: int)
    requires Calm(s, now) && NonePending(s) && IsAgent(s, ctx) && IdsInHeap(AskedState(s, ctx, now, next))
    ensures Calm(AskedState(s, ctx, now, next), now)
    ensures forall r | 0 <= r < |s.requests| :: AskedState(s, ctx, now, next).requests[r].status != Pending
  {
    hide RequestRoom, GlobalAt, SessionAt, IdsInHeap, LeaseActive;
  }

  lemma DeniesStep(s: Broker, r: nat, now: int)
    requires Calm(s, now) && r in s.requestIds && r < |s.requests| && s.requests[r].status == Pending
    ensures Step(s, EDeny(0, r), now) == DeniedState(s, r, now, Step(s, EDeny(0, r), now).nextMaintenanceAt)
  {
    CalmMaintained(s, now);
    hide Maintain, Calm;
  }

  lemma DeniedCalm(s: Broker, r: nat, now: int, next: int)
    requires Calm(s, now) && r < |s.requests|
    requires forall q | 0 <= q < |s.requests| && q != r :: s.requests[q].status != Pending
    ensures Calm(DeniedState(s, r, now, next), now) && NonePending(DeniedState(s, r, now, next))
  {
    hide LeaseActive;
  }

  // --------------------------------------------------------- many requests

  /** From `s` to `t`, `n` requests of sessions from `lo` up to `hi` were created and denied, all at `now`. */
  ghost predicate Asked(s: Broker, t: Broker, lo: nat, hi: nat, now: int, n: nat) {
    && t.leases == s.leases && t.leaseIds == s.leaseIds && t.commands == s.commands && t.browsers == s.browsers
    && |t.requests| == |s.requests| + n && s.requests <= t.requests
    && (forall r | |s.requests| <= r < |t.requests| :: t.requests[r].createdAt == now && lo <= t.requests[r].session < hi)
    && |t.contexts| == |s.contexts|
    && (forall k | 0 <= k < |s.contexts| :: t.contexts[k] == s.contexts[k].(window := t.contexts[k].window))
    && (forall k | 0 <= k < |s.contexts| && !(lo <= k < hi) :: t.contexts[k] == s.contexts[k])
    && t.globalWindow == (if n == 0 then s.globalWindow else GlobalAt(s, now).(count := GlobalAt(s, now).count + n))
    && (|s.requestIds| + n <= ACCESS_REQUEST_RECORD_LIMIT ==> |t.requestIds| == |s.requestIds| + n && s.requestIds <= t.requestIds)
  }

  lemma AskedOn(s: Broker, t: Broker, u: Broker, lo: nat, hi: nat, now: int, n: nat, m: nat)
    requires Asked(s, t, lo, hi, now, n) && Asked(t, u, lo, hi, now, m) && 0 < now
    ensures Asked(s, u, lo, hi, now, n + m)
  {
    forall k | 0 <= k < |s.contexts| ensures u.contexts[k] == s.contexts[k].(window := u.contexts[k].window) {
      assert t.contexts[k] == s.contexts[k].(window := t.contexts[k].window);
    }
  }

  lemma RoundAsked(s: Broker, ctx: nat, now: int, next: int)
    requires IdsInHeap(s) && ctx < |s.contexts|
    ensures Asked(s, RoundState(s, ctx, now, next), ctx, ctx + 1, now, 1)
  {
    hide GlobalAt, SessionAt;
  }

  /** One agent repeats that as often as its windows allow. */
  lemma {:induction false} ManyRounds(s: Broker, clock: int, ctx: nat, now: int, n: nat) returns (t: Broker)
    requires Reached(s, clock) && clock <= now && Calm(s, now) && NonePending(s) && IsAgent(s, ctx) && n > 0
    requires SessionAt(s, ctx, now).count + n <= ACCESS_REQUESTS_PER_SESSION_WINDOW && GlobalAt(s, now).count + n <= ACCESS_REQUESTS_GLOBAL_WINDOW
    ensures Reached(t, now) && Calm(t, now) && NonePending(t) && Asked(s, t, ctx, ctx + 1, now, n)
    ensures ctx < |t.contexts| && SessionAt(t, ctx, now) == SessionAt(s, ctx, now).(count := SessionAt(s, ctx, now).count + n)
    ensures t.contexts[ctx].window == Some(SessionAt(t, ctx, now))
    decreases n
  {
    hide Reached, Calm, NonePending, IdsInHeap, RequestRoom, Asked, Dedup;
    CalmIds(s, now);
    var half, reached := s, clock;
    NothingAsked(s, ctx, now);
    if n > 1 {
      half := ManyRounds(s, clock, ctx, now, n - 1);
      reached := now;
    }
    AskedKeeps(s, half, ctx, ctx + 1, now, n - 1, ctx);
    ReachedInv(half, reached);
    t := Rounds(half, reached, ctx, now);
    RoundAsked(half, ctx, now, t.nextMaintenanceAt);
    AskedOn(s, half, t, ctx, ctx + 1, now, n - 1, 1);
    RoundWindow(half, ctx, now, t.nextMaintenanceAt);
  }

  lemma NothingAsked(s: Broker, ctx: nat, now: int)
    requires ctx < |s.contexts|
    ensures Asked(s, s, ctx, ctx + 1, now, 0)
    ensures SessionAt(s, ctx, now) == SessionAt(s, ctx, now).(count := SessionAt(s, ctx, now).count)
  {
  }

  lemma RoundWindow(s: Broker, ctx: nat, now: int, next: int)
    requires IdsInHeap(s) && ctx < |s.contexts| && 0 < now
    ensures var t := RoundState(s, ctx, now, next);
            && SessionAt(t, ctx, now) == SessionAt(s, ctx, now).(count := SessionAt(s, ctx, now).count + 1)
            && t.contexts[ctx].window == Some(SessionAt(t, ctx, now))
  {
    hide RequestRoom, NewRequest;
  }

  /** What the requests leave as it was for the agents and the global window. */
  lemma AskedKeeps(s: Broker, t: Broker, lo: nat, hi: nat, now: int, n: nat, ctx: nat)
    requires Asked(s, t, lo, hi, now, n) && 0 < now
    ensures IsAgent(s, ctx) ==> IsAgent(t, ctx)
    ensures GlobalAt(t, now) == GlobalAt(s, now).(count := GlobalAt(s, now).count + n)
  {
    if ctx < |s.contexts| {
      assert t.contexts[ctx] == s.contexts[ctx].(window := t.contexts[ctx].window);
    }
  }

  /** Agents `lo` up to `hi` use up their session windows, all at `now`. */
  lemma {:induction false} Crowds(s: Broker, clock: int, lo: nat, hi: nat, now: int) returns (t: Broker)
    requires Reached(s, clock) && clock <= now && Calm(s, now) && NonePending(s) && lo < hi
    requires forall a | lo <= a < hi :: IsAgent(s, a) && SessionAt(s, a, now).count == 0
    requires GlobalAt(s, now).count + (hi - lo) * ACCESS_REQUESTS_PER_SESSION_WINDOW <= ACCESS_REQUESTS_GLOBAL_WINDOW
    ensures Reached(t, now) && Calm(t, now) && NonePending(t)
    ensures Asked(s, t, lo, hi, now, (hi - lo) * ACCESS_REQUESTS_PER_SESSION_WINDOW)
    decreases hi
  {
    hide Reached, Calm, NonePending, IdsInHeap, RequestRoom, Asked, GlobalAt;
    CalmIds(s, now);
    var last, each := hi - 1, ACCESS_REQUESTS_PER_SESSION_WINDOW;
    var half, reached := s, clock;
    assert IsAgent(s, lo);
    NothingAsked(s, lo, now);
    if lo < last {
      half := Crowds(s, clock, lo, last, now);
      reached := now;
    }
    var before := (last - lo) * each;
    AskedWidens(s, half, lo, if lo < last then last else lo + 1, hi, now, before);
    AskedKeeps(s, half, lo, hi, now, before, last);
    t := ManyRounds(half, reached, last, now, each);
    AskedNarrow(half, t, last, lo, hi, now, each);
    AskedOn(s, half, t, lo, hi, now, before, each);
  }

  lemma AskedWidens(s: Broker, t: Broker, lo: nat, mid: nat, hi: nat, now: int, n: nat)
    requires Asked(s, t, lo, mid, now, n) && mid <= hi
    ensures Asked(s, t, lo, hi, now, n)
    ensures forall k | mid <= k < |s.contexts| :: k < |t.contexts| && SessionAt(t, k, now) == SessionAt(s, k, now)
  {
  }

  lemma AskedNarrow(s: Broker, t: Broker, ctx: nat, lo: nat, hi: nat, now: int, n: nat)
    requires Asked(s, t, ctx, ctx + 1, now, n) && lo <= ctx < hi
    ensures Asked(s, t, lo, hi, now, n)
  {
  }

  // ------------------------------------------------------------- the actors

  const INSTANCE := "b"

  /** A registered browser and `n` agents that have not asked for anything yet. */
  ghost predicate Scene(s: Broker, n: nat) {
    && s.requests == [] && s.requestIds == [] && s.leases == [] && s.leaseIds == [] && s.commands == []
    && |s.contexts| == n + 1 && IsBrowser(s, 0) && s.contexts[0].browserInstanceId == Some(INSTANCE)
    && (forall a | 1 <= a <= n :: s.contexts[a] == Context(AgentRole, "a", "t", None, None))
    && INSTANCE in s.browsers && s.globalWindow == Window(0, 0)
  }

  lemma {:induction false} SceneReached(n: nat) returns (s: Broker)
    ensures Reached(s, 1) && Scene(s, n)
  {
    hide Reached, Step, Scene;
    if n == 0 {
      ReachedStart(0);
      var e := ECreate(BrowserRole, INSTANCE, "t");
      var created := Step(Start(0), e, 1);
      Onward(Start(0), 0, e, 1);
      s := Step(created, ERegister(0, INSTANCE), 1);
      Onward(created, 1, ERegister(0, INSTANCE), 1);
      FirstScene();
    } else {
      var before := SceneReached(n - 1);
      s := Step(before, ECreate(AgentRole, "a", "t"), 1);
      Onward(before, 1, ECreate(AgentRole, "a", "t"), 1);
      NextScene(before, n - 1);
    }
  }

  lemma FirstScene()
    ensures Scene(Step(Step(Start(0), ECreate(BrowserRole, INSTANCE, "t"), 1), ERegister(0, INSTANCE), 1), 0)
  {
  }

  lemma NextScene(s: Broker, n: nat)
    requires Scene(s, n)
    ensures Scene(Step(s, ECreate(AgentRole, "a", "t"), 1), n + 1)
  {
  }

  lemma SceneCalm(s: Broker, n: nat, now: int)
    requires Scene(s, n) && 0 < now <= TERMINAL_RECORD_RETENTION_MS
    ensures Calm(s, now) && NonePending(s)
    ensures forall a | 1 <= a <= n :: IsAgent(s, a) && SessionAt(s, a, now) == Window(now, 0)
    ensures GlobalAt(s, now) == Window(now, 0)
  {
  }

  // ------------------------------------------------------- refused requests

  /** A request refused for its rate leaves the windows rolled over and nothing created. */
  lemma Refuses(s: Broker, clock: int, ctx: nat, now: int) returns (t: Broker)
    requires Reached(s, clock) && clock <= now && Calm(s, now) && NonePending(s) && IsAgent(s, ctx)
    requires SessionAt(s, ctx, now).count >= ACCESS_REQUESTS_PER_SESSION_WINDOW || GlobalAt(s, now).count >= ACCESS_REQUESTS_GLOBAL_WINDOW
    ensures Reached(t, now)
    ensures t == PutWindows(s, ctx, SessionAt(s, ctx, now), GlobalAt(s, now)).(nextMaintenanceAt := t.nextMaintenanceAt)
  {
    hide Reached, Maintain, ExpireRecords;
    t := Step(s, ERequest(ctx, ASK), now);
    Onward(s, clock, ERequest(ctx, ASK), now);
    var m := Maintain(s, now);
    CalmMaintained(s, now);
    CalmMaintained(m, now);
    hide Calm;
    assert t == RequestAccess(m, ctx, ASK, now).0;
  }

  /** With nothing pending, a state stays calm while its leases are active; windows play no part. */
  lemma CalmLater(s: Broker, t: Broker, now: int, later: int)
    requires Calm(s, now) && NonePending(s) && IdsInHeap(t)
    requires t == s.(contexts := t.contexts, globalWindow := t.globalWindow, nextMaintenanceAt := t.nextMaintenanceAt)
    requires forall l | 0 <= l < |s.leases| :: LeaseActive(s.leases[l], later)
    requires now <= later <= TERMINAL_RECORD_RETENTION_MS && IsBrowser(t, 0)
    ensures Calm(t, later) && NonePending(t)
  {
    hide LeaseActive;
  }

  // ----------------------------------------------------- counting what was created

  lemma {:induction false} CreatedMore(requests: seq<AccessRequest>, more: seq<AccessRequest>, session: Option<nat>, now: int, lo: int, hi: int)
    requires forall r | 0 <= r < |more| :: more[r].createdAt == now && (session == None || more[r].session == session.value)
    requires lo <= now < hi
    ensures CountIn(CreatedAt(requests + more, session), lo, hi) == CountIn(CreatedAt(requests, session), lo, hi) + |more|
  {
    if more == [] {
      assert requests + more == requests;
    } else {
      var last := |more| - 1;
      CreatedMore(requests, more[..last], session, now, lo, hi);
      assert requests + more == (requests + more[..last]) + [more[last]];
      CreatedAppend(requests + more[..last], more[last], session);
      CountAppend(CreatedAt(requests + more[..last], session), now, lo, hi);
    }
  }

  lemma AskedCounts(s: Broker, t: Broker, from: nat, upto: nat, now: int, n: nat, session: Option<nat>, lo: int, hi: int)
    requires Asked(s, t, from, upto, now, n) && lo <= now < hi
    requires session == None || (from == session.value && upto == from + 1)
    ensures CountIn(CreatedAt(t.requests, session), lo, hi) == CountIn(CreatedAt(s.requests, session), lo, hi) + n
  {
    var more := t.requests[|s.requests|..];
    assert t.requests == s.requests + more;
    CreatedMore(s.requests, more, session, now, lo, hi);
  }

  // ------------------------------------------------- the doubled request windows

  /** A run in which 40 requests of one session are created within one minute. */
  lemma SessionRateReached() returns (x: Execution, session: nat, from: int)
    ensures Behaves(x) && session < |x.states[|x.events|].contexts|
    ensures CountIn(CreatedAt(x.states[|x.events|].requests, Some(session)), from, from + ACCESS_REQUEST_RATE_WINDOW_MS)
            == 2 * ACCESS_REQUESTS_PER_SESSION_WINDOW
  {
    hide Reached, Behaves, Inv, CreatedAt, CountIn;
    var each := ACCESS_REQUESTS_PER_SESSION_WINDOW;
    var s0 := SceneReached(7);
    SceneCalm(s0, 7, 1);
    var s1 := Crowds(s0, 1, 1, 7, 1);
    CalmLater(s1, s1, 1, 2);
    var s2 := Refuses(s1, 1, 7, 2);
    CalmLater(s1, s2, 1, 60_001);
    var s3 := ManyRounds(s2, 2, 7, 60_001, each);
    CalmLater(s3, s3, 60_001, 60_002);
    var s4 := ManyRounds(s3, 60_001, 7, 60_002, each);
    session, from := 7, 60_001;
    AskedCounts(s2, s3, 7, 8, 60_001, each, Some(session), from, from + ACCESS_REQUEST_RATE_WINDOW_MS);
    AskedCounts(s3, s4, 7, 8, 60_002, each, Some(session), from, from + ACCESS_REQUEST_RATE_WINDOW_MS);
    x := RunTo(s4, 60_002);
    RequestRate(x, |x.events|, session, from);
  }

  lemma RunTo(s: Broker, clock: int) returns (x: Execution)
    requires Reached(s, clock)
    ensures Behaves(x) && x.states[|x.events|] == s && Clock(x, |x.events|) == clock
  {
    x :| Ends(x, s, clock);
  }

  /** A run in which 240 requests of all sessions are created within one minute. */
  lemma GlobalRateReached() returns (x: Execution, from: int)
    ensures Behaves(x)
    ensures CountIn(CreatedAt(x.states[|x.events|].requests, None), from, from + ACCESS_REQUEST_RATE_WINDOW_MS)
            == 2 * ACCESS_REQUESTS_GLOBAL_WINDOW
  {
    hide Reached, Behaves, Inv, CreatedAt, CountIn;
    var s0 := SceneReached(14);
    SceneCalm(s0, 14, 1);
    var s1 := ManyRounds(s0, 1, 1, 1, 1);
    CalmLater(s1, s1, 1, 2);
    var s2 := ManyRounds(s1, 1, 2, 2, ACCESS_REQUESTS_PER_SESSION_WINDOW);
    CalmLater(s2, s2, 2, 60_001);
    var s3 := Refuses(s2, 2, 2, 60_001);
    CalmLater(s2, s3, 2, 60_002);
    var s4 := Crowds(s3, 60_001, 3, 9, 60_002);
    CalmLater(s4, s4, 60_002, 120_001);
    var s5 := Crowds(s4, 60_002, 9, 15, 120_001);
    from := 60_002;
    AskedCounts(s3, s4, 3, 9, 60_002, ACCESS_REQUESTS_GLOBAL_WINDOW, None, from, from + ACCESS_REQUEST_RATE_WINDOW_MS);
    AskedCounts(s4, s5, 9, 15, 120_001, ACCESS_REQUESTS_GLOBAL_WINDOW, None, from, from + ACCESS_REQUEST_RATE_WINDOW_MS);
    x := RunTo(s5, 120_001);
    RequestRate(x, |x.events|, 0, from);
  }

  // -------------------------------------------------------- one leased agent

  const GRANT := GrantParams(0, INSTANCE, 1, "d", "o", "o", [PageHighlight], None)

  /** The first lease serves the agent in context 1, and none of its commands is suspended. */
  ghost predicate Serving(s: Broker) {
    && |s.leases| == 1 && s.leaseIds == [0] && IsAgent(s, 1)
    && var lease := s.leases[0];
       && lease.session == 1 && lease.browserInstanceId == INSTANCE && INSTANCE in s.browsers
       && PageHighlight in lease.scopes && lease.revokedAt == None && lease.inFlight == 0
  }

  /** The claims of the grant satisfy the schema, so the capability is issued. */
  lemma GrantIssued(s: Broker, n: nat, next: int)
    requires Scene(s, n) && n >= 1
    ensures ClaimsWellFormed(GrantClaims(AskedState(s, 1, 1, next), NewRequest(s, 1, ASK, 1), GRANT, 1))
  {
    var claims := GrantClaims(AskedState(s, 1, 1, next), NewRequest(s, 1, ASK, 1), GRANT, 1);
    assert Dedup([PageHighlight]) == [PageHighlight] by {
      assert Dedup([PageHighlight][..0]) == [];
    }
    assert claims.scopes == [Fixed(PageHighlight)];
  }

  /** The state after the browser granted the first agent's request, all at time 1. */
  ghost predicate Leased(s: Broker, n: nat) {
    && Serving(s) && s.commands == [] && s.requestIds == [0] && |s.requests| == 1 && |s.contexts| == n + 1
    && s.requests[0].status == Granted && s.requests[0].terminalAt == Some(1) && s.requests[0].leaseId == Some(0)
    && (forall a | 1 <= a <= n :: IsAgent(s, a)) && IsBrowser(s, 0)
    && var lease := s.leases[0];
       && lease.windowStartedAt == 1 && lease.commandsInWindow == 0 && lease.lastUsedAt == 1
       && lease.policy.remainingUses == LEASE_USE_LIMIT && lease.expiresAt == 600_001
  }

  lemma LeasedReached(n: nat) returns (s: Broker)
    requires n >= 1
    ensures Reached(s, 1) && Leased(s, n)
  {
    hide Reached, Step, Scene, Calm, NonePending, IsAgent, SessionAt, GlobalAt, Leased;
    var scene := SceneReached(n);
    SceneCalm(scene, n, 1);
    assert IsAgent(scene, 1);
    var asked := Asks(scene, 1, 1, 1);
    s := Step(asked, EGrant(0, GRANT), 1);
    Onward(asked, 1, EGrant(0, GRANT), 1);
    ReachedInv(asked, 1);
    GrantsFirst(scene, asked, n);
  }

  lemma GrantsFirst(scene: Broker, asked: Broker, n: nat)
    requires Scene(scene, n) && n >= 1 && IdsInHeap(scene) && Calm(scene, 1) && NonePending(scene)
    requires asked == AskedState(scene, 1, 1, asked.nextMaintenanceAt) && IdsInHeap(asked)
    ensures Leased(Step(asked, EGrant(0, GRANT), 1), n)
  {
    GrantIssued(scene, n, asked.nextMaintenanceAt);
    AskedCalm(scene, 1, 1, asked.nextMaintenanceAt);
    CalmMaintained(asked, 1);
    hide ClaimsWellFormed, Calm, Maintain, SessionAt, GlobalAt;
    var m := Maintain(asked, 1);
    var lease := NewLease(m.requests[0], GRANT, Capability(GrantClaims(m, m.requests[0], GRANT, 1), Mac(m.secret, GrantClaims(m, m.requests[0], GRANT, 1))), 1);
    assert GrantRefusal(m, 0, GRANT, 1) == None;
    assert GrantAccess(m, 0, GRANT, 1).0 == AddLease(m, 0, lease, 1);
    assert Dedup([PageHighlight]) == [PageHighlight] by {
      assert Dedup([PageHighlight][..0]) == [];
    }
  }

  // ------------------------------------------------------------- commands

  /** The state after one more command was admitted, answered and audited at `now`. */
  function UsedState(s: Broker, now: int, next: int): Broker
    requires |s.leases| == 1
  {
    s.(leases := [ReserveCommand(s.leases[0], now).0.(inFlight := 0)],
       commands := s.commands + [Command(0, HighlightKind, now, Returned(0, now))],
       nextMaintenanceAt := next)
  }

  lemma Uses(s: Broker, clock: int, now: int) returns (t: Broker)
    requires Reached(s, clock) && clock <= now && Calm(s, now) && Serving(s)
    requires s.leases[0].policy.remainingUses > 1
    requires RolledWindow(s.leases[0], now).commandsInWindow < LEASE_COMMANDS_PER_WINDOW
    ensures Reached(t, now) && t == UsedState(s, now, t.nextMaintenanceAt)
  {
    hide Reached, Step;
    var c := |s.commands|;
    var begun := Step(s, EExecute(1, 0, HighlightElement), now);
    Onward(s, clock, EExecute(1, 0, HighlightElement), now);
    var replied := Step(begun, EBrowserReply(c, BrowserResult(None)), now);
    Onward(begun, now, EBrowserReply(c, BrowserResult(None)), now);
    t := Step(replied, ESuccessAudit(c, true), now);
    Onward(replied, now, ESuccessAudit(c, true), now);
    Begins(s, now);
    Answers(s, begun, replied, t, now);
  }

  lemma Begins(s: Broker, now: int)
    requires Calm(s, now) && Serving(s)
    requires s.leases[0].policy.remainingUses > 1
    requires RolledWindow(s.leases[0], now).commandsInWindow < LEASE_COMMANDS_PER_WINDOW
    ensures var t := Step(s, EExecute(1, 0, HighlightElement), now);
            t == AddCommand(PutLease(s, 0, ReserveCommand(s.leases[0], now).0), Command(0, HighlightKind, now, AwaitBrowser))
                 .(nextMaintenanceAt := t.nextMaintenanceAt)
  {
    CalmMaintained(s, now);
    hide Maintain, RolledWindow;
    var m := Maintain(s, now);
    assert CommandRefusal(m, 1, 0, HighlightElement, now) == None;
    assert AuthorizeCommand(m, m.leases[0], HighlightElement, now) == None;
  }

  lemma Answers(s: Broker, begun: Broker, replied: Broker, t: Broker, now: int)
    requires Calm(s, now) && Serving(s) && s.leases[0].policy.remainingUses > 1
    requires RolledWindow(s.leases[0], now).commandsInWindow < LEASE_COMMANDS_PER_WINDOW
    requires begun == AddCommand(PutLease(s, 0, ReserveCommand(s.leases[0], now).0), Command(0, HighlightKind, now, AwaitBrowser))
                      .(nextMaintenanceAt := begun.nextMaintenanceAt)
    requires replied == Step(begun, EBrowserReply(|s.commands|, BrowserResult(None)), now)
    requires t == Step(replied, ESuccessAudit(|s.commands|, true), now)
    ensures t == UsedState(s, now, t.nextMaintenanceAt)
  {
    var c := |s.commands|;
    assert replied == PutStage(begun, c, AwaitAudit(0, now));
    assert t == Finish(PutStage(replied, c, Returned(0, now)), 0, now);
    assert t.commands == UsedState(s, now, t.nextMaintenanceAt).commands;
    assert t.leases == UsedState(s, now, t.nextMaintenanceAt).leases;
  }

  /** From `s` to `t`, `n` commands were admitted at `now` and returned. */
  ghost predicate Used(s: Broker, t: Broker, now: int, n: nat) {
    && t == s.(leases := t.leases, commands := t.commands, nextMaintenanceAt := t.nextMaintenanceAt)
    && |s.leases| == 1 && |t.leases| == 1
    && |t.commands| == |s.commands| + n && s.commands <= t.commands
    && (forall c | |s.commands| <= c < |t.commands| :: t.commands[c].lease == 0 && t.commands[c].admittedAt == now)
    && var before, after := s.leases[0], t.leases[0];
       var rolled := if n == 0 then before else RolledWindow(before, now);
       && after.windowStartedAt == rolled.windowStartedAt && after.commandsInWindow == rolled.commandsInWindow + n
       && after.policy.remainingUses == before.policy.remainingUses - n
       && after.expiresAt == before.expiresAt && after.lastUsedAt == (if n == 0 then before.lastUsedAt else now)
  }

  lemma UseKeeps(s: Broker, now: int, next: int)
    requires Calm(s, now) && NonePending(s) && Serving(s) && s.leases[0].policy.remainingUses > 1
    requires RolledWindow(s.leases[0], now).commandsInWindow < LEASE_COMMANDS_PER_WINDOW
    ensures var t := UsedState(s, now, next);
            Calm(t, now) && NonePending(t) && Serving(t) && Used(s, t, now, 1)
  {
  }

  lemma UsedOn(s: Broker, t: Broker, u: Broker, now: int, n: nat)
    requires Used(s, t, now, n) && Used(t, u, now, 1)
    ensures Used(s, u, now, n + 1)
  {
  }

  /** The agent uses its lease `n` times at `now`, as often as the lease's window allows. */
  lemma {:induction false} ManyUses(s: Broker, clock: int, now: int, n: nat) returns (t: Broker)
    requires Reached(s, clock) && clock <= now && Calm(s, now) && NonePending(s) && Serving(s) && n > 0
    requires s.leases[0].policy.remainingUses > n
    requires RolledWindow(s.leases[0], now).commandsInWindow + n <= LEASE_COMMANDS_PER_WINDOW
    ensures Reached(t, now) && Calm(t, now) && NonePending(t) && Serving(t) && Used(s, t, now, n)
    decreases n
  {
    hide Reached, Calm, NonePending;
    var half, reached := s, clock;
    assert Used(s, s, now, 0);
    if n > 1 {
      half := ManyUses(s, clock, now, n - 1);
      reached := now;
    }
    t := Uses(half, reached, now);
    UseKeeps(half, now, t.nextMaintenanceAt);
    UsedOn(s, half, t, now, n - 1);
  }

  lemma {:induction false} AdmittedMore(commands: seq<Command>, more: seq<Command>, now: int, lo: int, hi: int)
    requires forall c | 0 <= c < |more| :: more[c].lease == 0 && more[c].admittedAt == now
    requires lo <= now < hi
    ensures CountIn(AdmittedAt(commands + more, 0), lo, hi) == CountIn(AdmittedAt(commands, 0), lo, hi) + |more|
  {
    if more == [] {
      assert commands + more == commands;
    } else {
      var last := |more| - 1;
      AdmittedMore(commands, more[..last], now, lo, hi);
      assert commands + more == (commands + more[..last]) + [more[last]];
      AdmittedAppend(commands + more[..last], more[last], 0);
      CountAppend(AdmittedAt(commands + more[..last], 0), now, lo, hi);
    }
  }

  lemma UsedCounts(s: Broker, t: Broker, now: int, n: nat, lo: int, hi: int)
    requires Used(s, t, now, n) && lo <= now < hi
    ensures CountIn(AdmittedAt(t.commands, 0), lo, hi) == CountIn(AdmittedAt(s.commands, 0), lo, hi) + n
  {
    var more := t.commands[|s.commands|..];
    assert t.commands == s.commands + more;
    AdmittedMore(s.commands, more, now, lo, hi);
  }

  lemma LeasedCalm(s: Broker, n: nat, now: int)
    requires Leased(s, n) && IdsInHeap(s) && 0 < now <= 120_000
    ensures Calm(s, now) && NonePending(s) && Serving(s)
  {
  }

  /** A run in which 60 commands of one lease are admitted within one minute: its window began with the grant. */
  lemma CommandRateReached() returns (x: Execution, l: nat, from: int)
    ensures Behaves(x) && l < |x.states[|x.events|].leases|
    ensures CountIn(AdmittedAt(x.states[|x.events|].commands, l), from, from + LEASE_COMMAND_WINDOW_MS) == 2 * LEASE_COMMANDS_PER_WINDOW
  {
    hide Reached, Behaves, Inv, AdmittedAt, CountIn;
    var each := LEASE_COMMANDS_PER_WINDOW;
    var s0 := LeasedReached(1);
    ReachedInv(s0, 1);
    LeasedCalm(s0, 1, 60_000);
    var s1 := ManyUses(s0, 1, 60_000, each);
    CalmLater(s1, s1, 60_000, 60_001);
    var s2 := ManyUses(s1, 60_000, 60_001, each);
    l, from := 0, 60_000;
    UsedCounts(s0, s1, 60_000, each, from, from + LEASE_COMMAND_WINDOW_MS);
    UsedCounts(s1, s2, 60_001, each, from, from + LEASE_COMMAND_WINDOW_MS);
    x := RunTo(s2, 60_001);
    CommandRate(x, |x.events|, l, from);
  }

  // ---------------------------------------------- evicting a granted request

  /** `count` recorded requests, the first of them granted, and its lease used at `clock` with `uses` uses left. */
  ghost predicate Filled(s: Broker, clock: int, count: nat, uses: int) {
    && Reached(s, clock) && Calm(s, clock) && NonePending(s) && Serving(s)
    && |s.contexts| == 8 && (forall a | 1 <= a <= 7 :: IsAgent(s, a))
    && |s.requests| == count == |s.requestIds| && count > 0 && s.requestIds[0] == 0
    && s.requests[0].status == Granted && s.requests[0].terminalAt == Some(1) && s.requests[0].leaseId == Some(0)
    && s.leases[0].lastUsedAt == clock && s.leases[0].expiresAt == 600_001 && s.leases[0].policy.remainingUses == uses
  }

  lemma LaterFresh(s: Broker, clock: int, now: int)
    requires Inv(s, clock) && 0 < clock && clock + ACCESS_REQUEST_RATE_WINDOW_MS <= now
    ensures GlobalAt(s, now) == Window(now, 0)
    ensures forall a | 0 <= a < |s.contexts| :: SessionAt(s, a, now) == Window(now, 0)
  {
    InvBegan(s, clock);
    hide Inv;
  }

  /** The lease is used once a whole window later, when all windows are over. */
  lemma MinutePasses(s: Broker, clock: int, count: nat, uses: int, now: int) returns (t: Broker)
    requires Filled(s, clock, count, uses) && uses > 1
    requires clock + LEASE_COMMAND_WINDOW_MS <= now < clock + LEASE_IDLE_TIMEOUT_MS && now <= 600_000
    ensures Filled(t, now, count, uses - 1) && GlobalAt(t, now) == Window(now, 0)
    ensures forall a | 0 <= a < |t.contexts| :: SessionAt(t, a, now) == Window(now, 0)
  {
    ReachedInv(s, clock);
    hide Reached, Inv;
    LaterFresh(s, clock, now);
    InvLeaseWindow(s, clock, 0);
    hide AdmittedAt, Accounts, SessionAt, GlobalAt;
    CalmLater(s, s, clock, now);
    t := ManyUses(s, clock, now, 1);
    FilledUsed(s, t, clock, count, uses, now);
  }

  lemma FilledUsed(s: Broker, t: Broker, clock: int, count: nat, uses: int, now: int)
    requires Filled(s, clock, count, uses) && Used(s, t, now, 1)
    requires Reached(t, now) && Calm(t, now) && NonePending(t) && Serving(t)
    ensures Filled(t, now, count, uses - 1) && GlobalAt(t, now) == GlobalAt(s, now) && |t.contexts| == |s.contexts|
    ensures forall a | 0 <= a < |t.contexts| :: SessionAt(t, a, now) == SessionAt(s, a, now)
  {
    hide Reached, Calm, NonePending;
    forall a | 1 <= a <= 7 ensures IsAgent(t, a) {
      assert IsAgent(s, a);
    }
  }

  lemma FilledMore(s: Broker, t: Broker, now: int, count: nat, uses: int, lo: nat, hi: nat, n: nat)
    requires Filled(s, now, count, uses) && Asked(s, t, lo, hi, now, n) && count + n <= ACCESS_REQUEST_RECORD_LIMIT
    requires Reached(t, now) && Calm(t, now) && NonePending(t)
    ensures Filled(t, now, count + n, uses)
  {
    hide Reached, Calm, NonePending;
    forall a | 1 <= a <= 7 ensures IsAgent(t, a) {
      assert IsAgent(s, a) && t.contexts[a] == s.contexts[a].(window := t.contexts[a].window);
    }
  }

  /** After the lease was used, six agents use up their windows. */
  lemma MinuteFills(s: Broker, clock: int, count: nat, uses: int, now: int) returns (t: Broker)
    requires Filled(s, clock, count, uses) && uses > 1 && count + ACCESS_REQUESTS_GLOBAL_WINDOW <= ACCESS_REQUEST_RECORD_LIMIT
    requires clock + LEASE_COMMAND_WINDOW_MS <= now < clock + LEASE_IDLE_TIMEOUT_MS && now <= 600_000
    ensures Filled(t, now, count + ACCESS_REQUESTS_GLOBAL_WINDOW, uses - 1)
  {
    hide Reached, Calm, Asked;
    var used := MinutePasses(s, clock, count, uses, now);
    t := Crowds(used, now, 2, 8, now);
    FilledMore(used, t, now, count, uses - 1, 2, 8, ACCESS_REQUESTS_GLOBAL_WINDOW);
  }

  /** The map is full after five minutes, and the lease was used a moment ago. */
  lemma FullReached() returns (s: Broker)
    ensures Filled(s, 300_001, ACCESS_REQUEST_RECORD_LIMIT, 245)
    ensures SessionAt(s, 3, 300_001).count < ACCESS_REQUESTS_PER_SESSION_WINDOW && GlobalAt(s, 300_001).count < ACCESS_REQUESTS_GLOBAL_WINDOW
  {
    hide Reached, Calm, NonePending, Serving, Asked, SessionAt, GlobalAt;
    var s0 := LeasedReached(7);
    ReachedInv(s0, 1);
    LeasedFilled(s0);
    hide Leased, Filled, Inv;
    var s1 := MinuteFills(s0, 1, 1, 250, 60_001);
    var s2 := MinuteFills(s1, 60_001, 121, 249, 120_001);
    var s3 := MinuteFills(s2, 120_001, 241, 248, 180_001);
    var s4 := MinuteFills(s3, 180_001, 361, 247, 240_001);
    var s5 := MinutePasses(s4, 240_001, 481, 246, 300_001);
    s := LastMinute(s5);
  }

  lemma LeasedFilled(s: Broker)
    requires Leased(s, 7) && Reached(s, 1) && IdsInHeap(s)
    ensures Filled(s, 1, 1, 250)
  {
    LeasedCalm(s, 7, 1);
  }

  lemma LastMinute(s: Broker) returns (t: Broker)
    requires Filled(s, 300_001, 481, 245) && GlobalAt(s, 300_001) == Window(300_001, 0)
    requires forall a | 0 <= a < |s.contexts| :: SessionAt(s, a, 300_001) == Window(300_001, 0)
    ensures Filled(t, 300_001, ACCESS_REQUEST_RECORD_LIMIT, 245)
    ensures SessionAt(t, 3, 300_001).count < ACCESS_REQUESTS_PER_SESSION_WINDOW && GlobalAt(t, 300_001).count < ACCESS_REQUESTS_GLOBAL_WINDOW
  {
    hide Reached, Calm, NonePending, Serving, GlobalAt;
    var now := 300_001;
    assert IsAgent(s, 2);
    var half := ManyRounds(s, now, 2, now, 20);
    FilledMore(s, half, now, 481, 245, 2, 3, 20);
    AskedKeeps(s, half, 2, 3, now, 20, 3);
    AskedWidens(s, half, 2, 3, 8, now, 20);
    assert IsAgent(half, 3);
    t := ManyRounds(half, now, 3, now, 11);
    FilledMore(half, t, now, 501, 245, 3, 4, 11);
    AskedKeeps(half, t, 3, 4, now, 11, 3);
  }

  /** Of a full map the request granted first of all ended first. */
  lemma GrantedIsFirst(s: Broker, clock: int, count: nat, uses: int)
    requires Filled(s, clock, count, uses)
    ensures IdsInHeap(s) && FirstEnded(s, 0)
  {
    hide Reached, LeaseActive, Serving;
  }

  /**
   * A run that ends with an active lease whose granted request is no longer recorded: 511 requests were
   * denied after it was granted, and the next one evicted it.
   */
  lemma GrantedRequestEvicted() returns (x: Execution, r: nat)
    ensures Behaves(x)
    ensures var s := x.states[|x.events|];
            && r < |s.requests| && s.requests[r].status == Granted && r !in s.requestIds
            && s.requests[r].leaseId.Some?
            && var l := s.requests[r].leaseId.value;
               l in s.leaseIds && l < |s.leases| && LeaseActive(s.leases[l], Clock(x, |x.events|))
  {
    hide Reached, Inv, LeaseActive, RequestRoom, SessionAt, GlobalAt, FirstEnded, Behaves;
    var s := FullReached();
    GrantedIsFirst(s, 300_001, ACCESS_REQUEST_RECORD_LIMIT, 245);
    var t := Asks(s, 300_001, 3, 300_001);
    ReachedInv(s, 300_001);
    Evicts(s, 300_001);
    x := RunTo(t, 300_001);
    r := 0;
  }

  lemma Evicts(s: Broker, clock: int)
    requires Inv(s, clock) && IdsInHeap(s) && |s.requestIds| == ACCESS_REQUEST_RECORD_LIMIT && FirstEnded(s, 0)
    ensures 0 !in RequestRoom(s).0
  {
    EvictedExactly(s, 0);
  }
}
