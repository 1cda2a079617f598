/** What each event of the pairing protocol does, spelled out, and what a run must contain for each authority. */
module PairingLaws {
  import opened Wrappers
  import opened Pairing
  import opened PairingProofs

  // ------------------------------------------------------ recent attempts

  /** The entries of the last `width` milliseconds. */
  function Recent(log: seq<int>, now: int, width: nat): seq<int> {
    if log == [] then []
    else Recent(log[..|log| - 1], now, width) + if now < log[|log| - 1] + width then [log[|log| - 1]] else []
  }

  ghost predicate Ordered(log: seq<int>, clock: int) {
    && (forall a, b | 0 <= a <= b < |log| :: log[a] <= log[b])
    && (forall a | 0 <= a < |log| :: log[a] <= clock)
  }

  lemma {:induction false} RecentAll(log: seq<int>, now: int, width: nat)
    requires forall a | 0 <= a < |log| :: now < log[a] + width
    ensures Recent(log, now, width) == log
  {
    if log != [] {
      RecentAll(log[..|log| - 1], now, width);
    }
  }

  lemma {:induction false} RecentDrops(log: seq<int>, now: int, width: nat)
    requires log != [] && log[0] + width <= now
    ensures Recent(log, now, width) == Recent(log[1..], now, width)
  {
    if |log| > 1 {
      RecentDrops(log[..|log| - 1], now, width);
      assert log[..|log| - 1][1..] == log[1..][..|log| - 2];
    } else {
      assert log[..0] == [] && log[1..] == [];
    }
  }

  /** The shifting loop keeps exactly the recent entries. */
  lemma {:induction false} DropOldIsRecent(log: seq<int>, clock: int, now: int, width: nat)
    requires Ordered(log, clock)
    ensures DropOld(log, now, width) == Recent(log, now, width)
    decreases |log|
  {
    if log != [] {
      if log[0] <= now - width {
        RecentDrops(log, now, width);
        DropOldIsRecent(log[1..], clock, now, width);
      } else {
        RecentAll(log, now, width);
      }
    }
  }

  lemma {:induction false} RecentOrdered(log: seq<int>, clock: int, now: int, width: nat)
    requires Ordered(log, clock)
    ensures Ordered(Recent(log, now, width), clock)
    ensures log != [] && Recent(log, now, width) != [] ==>
              Recent(log, now, width)[|Recent(log, now, width)| - 1] <= log[|log| - 1]
  {
    if log != [] {
      RecentOrdered(log[..|log| - 1], clock, now, width);
    }
  }

  /** Attempt lists are ordered and not ahead of the clock. */
  ghost predicate AttemptsOrdered(d: Daemon, clock: int) {
    Ordered(d.globalAttempts, clock) && forall c | 0 <= c < |d.connections| :: Ordered(d.connections[c].attempts, clock)
  }

  lemma LaterOrdered(log: seq<int>, clock: int, now: int)
    requires Ordered(log, clock) && clock <= now
    ensures Ordered(log, now) && Ordered(log + [now], now)
  {
  }

  lemma AdmissionOrdered(d: Daemon, attempts: seq<int>, clock: int, now: int)
    requires Ordered(attempts, clock) && Ordered(d.globalAttempts, clock) && clock <= now
    ensures var admission := AdmitPrompt(d, attempts, now);
            Ordered(admission.attempts, now) && Ordered(admission.globalAttempts, now)
  {
    var own, global := Recent(attempts, now, PAIRING_ATTEMPT_WINDOW_MS), Recent(d.globalAttempts, now, GLOBAL_PAIRING_ATTEMPT_WINDOW_MS);
    DropOldIsRecent(attempts, clock, now, PAIRING_ATTEMPT_WINDOW_MS);
    RecentOrdered(attempts, clock, now, PAIRING_ATTEMPT_WINDOW_MS);
    DropOldIsRecent(d.globalAttempts, clock, now, GLOBAL_PAIRING_ATTEMPT_WINDOW_MS);
    RecentOrdered(d.globalAttempts, clock, now, GLOBAL_PAIRING_ATTEMPT_WINDOW_MS);
    LaterOrdered(own, clock, now);
    LaterOrdered(global, clock, now);
    LaterOrdered(d.globalAttempts, clock, now);
    hide DropOld, Recent, Ordered;
  }

  lemma PairKeepsOrdered(d: Daemon, c: nat, pairing: Identity, clock: int, now: int)
    requires AttemptsOrdered(d, clock) && clock <= now && c < |d.connections|
    ensures AttemptsOrdered(AuthPair(d, c, pairing, now).0, now)
  {
    AdmissionOrdered(d, d.connections[c].attempts, clock, now);
    LaterKeepsOrdered(d, clock, now);
    hide AdmitPrompt, Ordered;
  }

  lemma LaterKeepsOrdered(d: Daemon, clock: int, now: int)
    requires AttemptsOrdered(d, clock) && clock <= now
    ensures AttemptsOrdered(d, now)
  {
  }

  /** The attempt lists are left alone, and a new connection has none. */
  ghost predicate SameAttempts(d: Daemon, f: Daemon) {
    && f.globalAttempts == d.globalAttempts && |d.connections| <= |f.connections|
    && (forall c | 0 <= c < |d.connections| :: f.connections[c].attempts == d.connections[c].attempts)
    && (forall c | |d.connections| <= c < |f.connections| :: f.connections[c].attempts == [])
  }

  lemma CallKeepsAttempts(d: Daemon, e: Event, now: int)
    requires Enabled(d, e) && (e.EAccept? || e.EHello? || e.EStart? || e.EComplete?)
    ensures SameAttempts(d, Step(d, e, now))
  {
    hide AuthPair, VerifySignature, LookupReply, ApprovalReply, PersistReply, ReleaseReply;
  }

  lemma ReplyKeepsAttempts(d: Daemon, e: Event, now: int)
    requires Enabled(d, e) && (e.ELookup? || e.EApproval? || e.EPersist? || e.ERelease?)
    ensures SameAttempts(d, Step(d, e, now))
  {
    hide AuthStart, AuthPair, AuthComplete, Hello;
  }

  /** Every event but a pairing request leaves the attempt lists alone. */
  lemma OthersKeepAttempts(d: Daemon, e: Event, now: int)
    requires !e.EPair?
    ensures SameAttempts(d, Step(d, e, now))
  {
    if Enabled(d, e) {
      if e.EAccept? || e.EHello? || e.EStart? || e.EComplete? {
        CallKeepsAttempts(d, e, now);
      } else {
        ReplyKeepsAttempts(d, e, now);
      }
    }
  }

  lemma StepKeepsOrdered(d: Daemon, e: Event, clock: int, now: int)
    requires AttemptsOrdered(d, clock) && clock <= now
    ensures AttemptsOrdered(Step(d, e, now), now)
  {
    LaterKeepsOrdered(d, clock, now);
    if e.EPair? {
      if Enabled(d, e) {
        PairKeepsOrdered(d, e.c, e.identity, clock, now);
      }
    } else {
      OthersKeepAttempts(d, e, now);
      hide Step;
    }
  }

  lemma {:induction false} RunKeepsOrdered(x: Execution, i: nat)
    requires Behaves(x) && Timely(x.events) && i < |x.states|
    ensures AttemptsOrdered(x.states[i], Clock(x, i))
  {
    if i > 0 {
      RunKeepsOrdered(x, i - 1);
      assert StepsTo(x, i - 1);
      hide Step, AttemptsOrdered;
      StepKeepsOrdered(x.states[i - 1], x.events[i - 1].event, Clock(x, i - 1), x.events[i - 1].now);
    }
  }

  // ------------------------------------------------------------ the events

  /** Nothing but this connection changed. */
  ghost predicate OnlyConnection(d: Daemon, e: Daemon, c: nat) {
    && |e.connections| == |d.connections|
    && (forall k | 0 <= k < |d.connections| && k != c :: e.connections[k] == d.connections[k])
  }

  /** A new connection has no role and nothing going on. */
  lemma AcceptExactly(x: Execution, i: nat)
    requires Behaves(x) && i < |x.events| && x.events[i].event == EAccept
    ensures var d, e := x.states[i], x.states[i + 1];
            e == d.(connections := d.connections + [Connection(Unauthenticated, None, false, false, [])])
  {
    assert StepsTo(x, i);
  }

  /** A hello makes an agent of its connection exactly when it is verified and the first; any other changes nothing. */
  lemma HelloExactly(x: Execution, i: nat, c: nat, verified: bool)
    requires Behaves(x) && i < |x.events| && x.events[i].event == EHello(c, verified)
    ensures var d, e := x.states[i], x.states[i + 1];
            if c < |d.connections| && d.connections[c].role == Unauthenticated && verified
            then e == d.(connections := d.connections[c := d.connections[c].(role := Agent)])
            else e == d
  {
    assert StepsTo(x, i);
  }

  /** An agent's connection on which nothing is going on, an expired challenge counting as nothing. */
  ghost predicate Idle(connection: Connection, now: int) {
    && connection.role == Agent && !connection.transitionActive
    && (connection.challenge.Some? ==> connection.challenge.value.expiresAt <= now)
  }

  /** The connection without an expired challenge. */
  ghost predicate Cleared(before: Connection, after: Connection, now: int) {
    if before.role == Agent && before.challenge.Some? && before.challenge.value.expiresAt <= now
    then after == before.(challenge := None, pairsKey := false)
    else after == before
  }

  /** An authentication starts its lookup exactly on an idle agent connection. */
  lemma StartExactly(x: Execution, i: nat, c: nat, identity: Identity)
    requires Behaves(x) && i < |x.events| && x.events[i].event == EStart(c, identity) && c < |x.states[i].connections|
    ensures var d, e, now := x.states[i], x.states[i + 1], x.events[i].now;
            && e == d.(connections := e.connections, tasks := e.tasks) && OnlyConnection(d, e, c)
            && if Idle(d.connections[c], now) then
                 && e.tasks == d.tasks + [Task(c, AwaitLookup(identity))]
                 && Cleared(d.connections[c], e.connections[c].(transitionActive := false), now) && e.connections[c].transitionActive
               else e.tasks == d.tasks && Cleared(d.connections[c], e.connections[c], now)
  {
    assert StepsTo(x, i);
  }

  /** The connection after its transition ended without a challenge. */
  ghost predicate Ended(before: Connection, after: Connection) {
    after == before.(transitionActive := false)
  }

  /** The connection after it was given a fresh challenge for this identity, good for thirty seconds. */
  ghost predicate Challenged(d: Daemon, e: Daemon, c: nat, identity: Identity, pairsKey: bool, now: int) {
    && c < |d.connections| == |e.connections| && e.nextChallenge == d.nextChallenge + 1
    && e.connections[c] == d.connections[c].(
         challenge := Some(Challenge(d.nextChallenge, identity, now + 30_000)), pairsKey := pairsKey, transitionActive := false)
  }

  /** A lookup leads to a challenge exactly when the key is paired. */
  lemma LookupExactly(x: Execution, i: nat, t: nat, answer: LookupAnswer)
    requires Behaves(x) && i < |x.events| && x.events[i].event == ELookup(t, answer)
    requires t < |x.states[i].tasks| && x.states[i].tasks[t].stage.AwaitLookup?
    ensures var d, e, now := x.states[i], x.states[i + 1], x.events[i].now;
            var c, identity := d.tasks[t].connection, d.tasks[t].stage.start;
            && e == d.(connections := e.connections, tasks := e.tasks, nextChallenge := e.nextChallenge, log := e.log)
            && OnlyConnection(d, e, c) && c < |d.connections|
            && e.tasks == d.tasks[t := d.tasks[t].(stage := Finished)]
            && if answer == Paired then Challenged(d, e, c, identity, false, now)
               else Ended(d.connections[c], e.connections[c]) && e.nextChallenge == d.nextChallenge
  {
    assert StepsTo(x, i);
    RunKeepsExclusive(x, i);
  }

  /** Every limit leaves room for a prompt: the connection's own attempts, the prompt showing, the cooldown, all prompts. */
  ghost predicate MayPrompt(d: Daemon, c: nat, now: int)
    requires c < |d.connections|
  {
    && |Recent(d.connections[c].attempts, now, 300_000)| < 3
    && !d.promptActive
    && (d.lastPromptAt.Some? ==> d.lastPromptAt.value + 30_000 <= now)
    && |Recent(d.globalAttempts, now, 600_000)| < 3
  }

  /** What a pairing request makes of the daemon. */
  ghost predicate PairLaw(d: Daemon, e: Daemon, c: nat, identity: Identity, now: int)
    requires c < |d.connections|
  {
    && OnlyConnection(d, e, c) && e.nextChallenge == d.nextChallenge && e.lastPromptAt == d.lastPromptAt && e.log == d.log
    && e.dismissals == d.dismissals
    && var before, after := d.connections[c], e.connections[c];
       var own := Recent(before.attempts, now, 300_000);
       if !Idle(before, now) then
         Cleared(before, after, now) && e.tasks == d.tasks && e.promptActive == d.promptActive
         && e.globalAttempts == d.globalAttempts && e.prompts == d.prompts
       else
         && Cleared(before, after.(transitionActive := false, attempts := before.attempts), now)
         && after.attempts == (if |own| < 3 then own + [now] else own)
         && if MayPrompt(d, c, now) then
              && e.tasks == d.tasks + [Task(c, AwaitApproval(identity))] && after.transitionActive && e.promptActive
              && e.globalAttempts == Recent(d.globalAttempts, now, 600_000) + [now] && e.prompts == d.prompts + [now]
            else
              && e.tasks == d.tasks && !after.transitionActive && e.promptActive == d.promptActive && e.prompts == d.prompts
              && (e.globalAttempts == d.globalAttempts || e.globalAttempts == Recent(d.globalAttempts, now, 600_000))
  }

  /** The limits as the handler applies them, and which of them a refusal names. */
  lemma AdmissionExactly(d: Daemon, c: nat, clock: int, now: int)
    requires c < |d.connections| && AttemptsOrdered(d, clock)
    ensures var admission := AdmitPrompt(d, d.connections[c].attempts, now);
            var own, global := Recent(d.connections[c].attempts, now, 300_000), Recent(d.globalAttempts, now, 600_000);
            && (admission.refusal == None <==> MayPrompt(d, c, now))
            && admission.attempts == (if |own| < 3 then own + [now] else own)
            && (if admission.refusal == None then admission.globalAttempts == global + [now]
                else admission.globalAttempts == d.globalAttempts || admission.globalAttempts == global)
            && match admission.refusal
               case None => true
               case Some(PairingRateLimit) => |own| >= 3
               case Some(PairingBusy) => d.promptActive
               case Some(PairingCooldown) => d.lastPromptAt.Some? && now < d.lastPromptAt.value + 30_000
               case Some(PairingGlobalRateLimit) => |global| >= 3
               case Some(_) => false
  {
    DropOldIsRecent(d.connections[c].attempts, clock, now, PAIRING_ATTEMPT_WINDOW_MS);
    DropOldIsRecent(d.globalAttempts, clock, now, GLOBAL_PAIRING_ATTEMPT_WINDOW_MS);
    hide Recent, DropOld, Ordered;
  }

  lemma PairOutcome(d: Daemon, c: nat, identity: Identity, clock: int, now: int)
    requires c < |d.connections| && AttemptsOrdered(d, clock)
    ensures PairLaw(d, AuthPair(d, c, identity, now).0, c, identity, now)
  {
    if Idle(d.connections[c], now) {
      AdmissionExactly(d, c, clock, now);
      hide MayPrompt, Recent, AttemptsOrdered, PairLaw;
      IdlePairOutcome(d, c, identity, now);
    } else {
      hide AdmitPrompt, MayPrompt, Recent, AttemptsOrdered;
    }
  }

  lemma IdlePairOutcome(d: Daemon, c: nat, identity: Identity, now: int)
    requires c < |d.connections| && Idle(d.connections[c], now)
    requires var admission := AdmitPrompt(d, d.connections[c].attempts, now);
             var own, global := Recent(d.connections[c].attempts, now, 300_000), Recent(d.globalAttempts, now, 600_000);
             && (admission.refusal == None <==> MayPrompt(d, c, now))
             && admission.attempts == (if |own| < 3 then own + [now] else own)
             && (if admission.refusal == None then admission.globalAttempts == global + [now]
                 else admission.globalAttempts == d.globalAttempts || admission.globalAttempts == global)
    ensures PairLaw(d, AuthPair(d, c, identity, now).0, c, identity, now)
  {
    hide AdmitPrompt, MayPrompt, Recent;
    assert ClearExpired(d.connections[c], now).attempts == d.connections[c].attempts;
  }

  /**
   * A pairing request shows a prompt exactly on an idle agent connection when all four limits leave room.
   * Unless the connection has used up its own attempts, the request counts as one of them either way.
   */
  lemma PairExactly(x: Execution, i: nat, c: nat, identity: Identity)
    requires Behaves(x) && Timely(x.events) && i < |x.events| && x.events[i].event == EPair(c, identity) && c < |x.states[i].connections|
    ensures PairLaw(x.states[i], x.states[i + 1], c, identity, x.events[i].now)
  {
    assert StepsTo(x, i);
    RunKeepsOrdered(x, i);
    hide AuthPair, PairLaw, AttemptsOrdered;
    PairOutcome(x.states[i], c, identity, Clock(x, i), x.events[i].now);
  }

  /** The prompt is over either way, and leads to a challenge that pairs the key exactly when it was approved. */
  lemma ApprovalExactly(x: Execution, i: nat, t: nat, approved: bool)
    requires Behaves(x) && i < |x.events| && x.events[i].event == EApproval(t, approved)
    requires t < |x.states[i].tasks| && x.states[i].tasks[t].stage.AwaitApproval?
    ensures var d, e, now := x.states[i], x.states[i + 1], x.events[i].now;
            var c, identity := d.tasks[t].connection, d.tasks[t].stage.pairing;
            && OnlyConnection(d, e, c) && c < |d.connections|
            && e.tasks == d.tasks[t := d.tasks[t].(stage := Finished)]
            && !e.promptActive && e.lastPromptAt == Some(now) && e.dismissals == d.dismissals + [now]
            && e.prompts == d.prompts && e.globalAttempts == d.globalAttempts
            && if approved then Challenged(d, e, c, identity, true, now)
               else Ended(d.connections[c], e.connections[c]) && e.nextChallenge == d.nextChallenge
  {
    assert StepsTo(x, i);
    RunKeepsExclusive(x, i);
  }

  /** The live challenge that an answer to this identifier meets. */
  ghost predicate Meets(connection: Connection, challengeId: nat, now: int) {
    && connection.role == Agent && !connection.transitionActive && connection.challenge.Some?
    && connection.challenge.value.id == challengeId && now < connection.challenge.value.expiresAt
  }

  /**
   * An answer that meets the live challenge of an agent connection uses it up; it goes on, to the key store
   * when the challenge pairs the key, exactly when the signature is the key's over this challenge and identity.
   */
  lemma CompleteExactly(x: Execution, i: nat, c: nat, challengeId: nat, signature: Signature)
    requires Behaves(x) && i < |x.events| && x.events[i].event == EComplete(c, challengeId, signature) && c < |x.states[i].connections|
    ensures var d, e, now := x.states[i], x.states[i + 1], x.events[i].now;
            e == d.(connections := e.connections, tasks := e.tasks, log := e.log) && OnlyConnection(d, e, c)
    ensures var d, e, now := x.states[i], x.states[i + 1], x.events[i].now;
            var before, after := d.connections[c], e.connections[c];
            if !Meets(before, challengeId, now) then Cleared(before, after, now) && e.tasks == d.tasks
               else
                 var challenge := before.challenge.value;
                 if signature == Signed(challenge.identity.publicKey, challenge.id, challenge.identity) then
                   && after == before.(challenge := None, pairsKey := false, transitionActive := true)
                   && e.tasks == d.tasks + [Task(c, if before.pairsKey then AwaitPersist(challenge) else AwaitRelease(challenge))]
                 else after == before.(challenge := None, pairsKey := false) && e.tasks == d.tasks
  {
    assert StepsTo(x, i);
  }

  /** A proven key that is to be paired goes on exactly when it was stored. */
  lemma PersistExactly(x: Execution, i: nat, t: nat, ok: bool)
    requires Behaves(x) && i < |x.events| && x.events[i].event == EPersist(t, ok)
    requires t < |x.states[i].tasks| && x.states[i].tasks[t].stage.AwaitPersist?
    ensures var d, e := x.states[i], x.states[i + 1];
            var c, challenge := d.tasks[t].connection, d.tasks[t].stage.persisted;
            && e == d.(connections := e.connections, tasks := e.tasks, log := e.log) && OnlyConnection(d, e, c) && c < |d.connections|
            && if ok then e.tasks == d.tasks[t := d.tasks[t].(stage := AwaitRelease(challenge))] && e.connections == d.connections
               else e.tasks == d.tasks[t := d.tasks[t].(stage := Finished)] && Ended(d.connections[c], e.connections[c])
  {
    assert StepsTo(x, i);
    RunKeepsExclusive(x, i);
  }

  /** The connection becomes a browser, for the instance of its challenge, exactly when its agent context was released. */
  lemma ReleaseExactly(x: Execution, i: nat, t: nat, ok: bool)
    requires Behaves(x) && i < |x.events| && x.events[i].event == ERelease(t, ok)
    requires t < |x.states[i].tasks| && x.states[i].tasks[t].stage.AwaitRelease?
    ensures var d, e := x.states[i], x.states[i + 1];
            var c, challenge := d.tasks[t].connection, d.tasks[t].stage.released;
            && e == d.(connections := e.connections, tasks := e.tasks) && OnlyConnection(d, e, c) && c < |d.connections|
            && e.tasks == d.tasks[t := d.tasks[t].(stage := Finished)]
            && e.connections[c] == d.connections[c].(
                 transitionActive := false, role := if ok then Browser(challenge.identity.browserInstanceId) else d.connections[c].role)
  {
    assert StepsTo(x, i);
    RunKeepsExclusive(x, i);
  }

  // --------------------------------------------------- where things come from

  /** Event `a` suspended a handler as task `t`. */
  ghost predicate Opened(x: Execution, a: nat, t: nat)
    requires Behaves(x)
  {
    a < |x.events| && |x.states[a].tasks| == t && |x.states[a + 1].tasks| == t + 1
  }

  /** How one event may change a task or open it. */
  ghost predicate TaskMoves(d: Daemon, e: Daemon, event: Event, now: int, t: nat) {
    && |d.tasks| <= |e.tasks| <= |d.tasks| + 1
    && (t < |d.tasks| ==>
          && e.tasks[t].connection == d.tasks[t].connection
          && (e.tasks[t].stage == d.tasks[t].stage || e.tasks[t].stage == Finished
              || (event == EPersist(t, true) && d.tasks[t].stage.AwaitPersist?
                  && e.tasks[t].stage == AwaitRelease(d.tasks[t].stage.persisted))))
    && (|d.tasks| <= t < |e.tasks| ==> OpenedBy(d, e.tasks[t], event, now))
  }

  lemma PairTasks(d: Daemon, c: nat, identity: Identity, now: int, t: nat)
    requires c < |d.connections|
    ensures TaskMoves(d, AuthPair(d, c, identity, now).0, EPair(c, identity), now, t)
  {
    hide AdmitPrompt;
  }

  lemma CompleteTasks(d: Daemon, c: nat, id: nat, signature: Signature, now: int, t: nat)
    requires c < |d.connections|
    ensures TaskMoves(d, AuthComplete(d, c, id, signature, now).0, EComplete(c, id, signature), now, t)
  {
  }

  lemma ReplyTasks(d: Daemon, e: Event, now: int, t: nat)
    requires Enabled(d, e) && (e.ELookup? || e.EApproval? || e.EPersist? || e.ERelease?)
    ensures TaskMoves(d, Step(d, e, now), e, now, t)
  {
    hide AuthStart, AuthPair, AuthComplete, Hello;
  }

  /** A task keeps its connection, and only the reply it waits for moves it; new tasks come from calls. */
  lemma TasksMove(x: Execution, i: nat, t: nat)
    requires Behaves(x) && i < |x.events|
    ensures TaskMoves(x.states[i], x.states[i + 1], x.events[i].event, x.events[i].now, t)
  {
    var d, e, now := x.states[i], x.events[i].event, x.events[i].now;
    assert StepsTo(x, i);
    hide AuthPair, AuthComplete, LookupReply, ApprovalReply, PersistReply, ReleaseReply;
    if Enabled(d, e) {
      match e
      case EPair(c, identity) => PairTasks(d, c, identity, now, t);
      case EComplete(c, id, signature) => CompleteTasks(d, c, id, signature, now, t);
      case EAccept =>
      case EHello(_, _) =>
      case EStart(_, _) =>
      case _ => ReplyTasks(d, e, now, t);
    }
  }

  /** How a call opens a task. */
  ghost predicate OpenedBy(d: Daemon, task: Task, event: Event, now: int) {
    var c := task.connection;
    c < |d.connections| &&
    match task.stage
    case AwaitLookup(identity) => event == EStart(c, identity) && d.connections[c].role == Agent
    case AwaitApproval(identity) => event == EPair(c, identity) && d.connections[c].role == Agent
    case AwaitPersist(challenge) => AnsweredBy(d.connections[c], c, challenge, event, now) && d.connections[c].pairsKey
    case AwaitRelease(challenge) => AnsweredBy(d.connections[c], c, challenge, event, now) && !d.connections[c].pairsKey
    case Finished => false
  }

  /** The event is the right answer to the connection's challenge, in time. */
  ghost predicate AnsweredBy(connection: Connection, c: nat, challenge: Challenge, event: Event, now: int) {
    && connection.role == Agent && connection.challenge == Some(challenge) && now < challenge.expiresAt
    && event == EComplete(c, challenge.id, Signed(challenge.identity.publicKey, challenge.id, challenge.identity))
  }

  /** A suspended handler was opened by a call for what it waits for; a release after a store follows that store. */
  lemma {:induction false} TaskBegins(x: Execution, i: nat, t: nat) returns (a: nat)
    requires Behaves(x) && i < |x.states| && t < |x.states[i].tasks| && x.states[i].tasks[t].stage != Finished
    ensures a < i && Opened(x, a, t)
    ensures var task, first := x.states[i].tasks[t], x.states[a + 1].tasks[t];
            && task.connection == first.connection && OpenedBy(x.states[a], first, x.events[a].event, x.events[a].now)
            && (task.stage == first.stage
                || (first.stage.AwaitPersist? && task.stage == AwaitRelease(first.stage.persisted)
                    && exists s :: a < s < i && x.events[s].event == EPersist(t, true)))
    decreases i
  {
    hide Step, OpenedBy;
    TasksMove(x, i - 1, t);
    if t < |x.states[i - 1].tasks| {
      a := TaskBegins(x, i - 1, t);
    } else {
      a := i - 1;
    }
  }

  /** How one event may change the role and the challenge of a connection. */
  ghost predicate ConnectionMoves(d: Daemon, e: Daemon, event: Event, now: int, c: nat) {
    && |d.connections| <= |e.connections|
    && (|d.connections| <= c < |e.connections| ==> e.connections[c].role == Unauthenticated && e.connections[c].challenge == None)
    && (c < |d.connections| ==>
          var before, after := d.connections[c], e.connections[c];
          && (after.role == before.role
              || (before.role == Unauthenticated && after.role == Agent && event == EHello(c, true))
              || (event.ERelease? && event.ok && event.t < |d.tasks| && d.tasks[event.t].stage.AwaitRelease?
                  && d.tasks[event.t].connection == c
                  && after.role == Browser(d.tasks[event.t].stage.released.identity.browserInstanceId)))
          && (after.challenge == None
              || (after.challenge == before.challenge && after.pairsKey == before.pairsKey)
              || IssuedBy(d, event, now, c, after.challenge.value, after.pairsKey)))
  }

  lemma PairConnections(d: Daemon, c: nat, identity: Identity, now: int, k: nat)
    requires c < |d.connections|
    ensures ConnectionMoves(d, AuthPair(d, c, identity, now).0, EPair(c, identity), now, k)
  {
    hide AdmitPrompt, IssuedBy;
  }

  lemma CompleteConnections(d: Daemon, c: nat, id: nat, signature: Signature, now: int, k: nat)
    requires c < |d.connections|
    ensures ConnectionMoves(d, AuthComplete(d, c, id, signature, now).0, EComplete(c, id, signature), now, k)
  {
    hide VerifySignature, IssuedBy;
  }

  lemma IssueConnections(d: Daemon, e: Event, now: int, k: nat)
    requires Enabled(d, e) && (e.ELookup? || e.EApproval?)
    ensures ConnectionMoves(d, Step(d, e, now), e, now, k)
  {
    hide AuthStart, AuthPair, AuthComplete, Hello, PersistReply, ReleaseReply;
  }

  lemma LateConnections(d: Daemon, e: Event, now: int, k: nat)
    requires Enabled(d, e) && (e.EPersist? || e.ERelease?)
    ensures ConnectionMoves(d, Step(d, e, now), e, now, k)
  {
    hide AuthStart, AuthPair, AuthComplete, Hello, LookupReply, ApprovalReply, IssuedBy;
  }

  /** Role and challenge of a connection change only through its own hello, its replies and its answers. */
  lemma ConnectionsMove(x: Execution, i: nat, c: nat)
    requires Behaves(x) && i < |x.events|
    ensures ConnectionMoves(x.states[i], x.states[i + 1], x.events[i].event, x.events[i].now, c)
  {
    var d, e, now := x.states[i], x.events[i].event, x.events[i].now;
    assert StepsTo(x, i);
    hide AuthPair, AuthComplete, LookupReply, ApprovalReply, PersistReply, ReleaseReply, IssuedBy;
    if Enabled(d, e) {
      match e
      case EPair(k, identity) => PairConnections(d, k, identity, now, c);
      case EComplete(k, id, signature) => CompleteConnections(d, k, id, signature, now, c);
      case ELookup(_, _) => IssueConnections(d, e, now, c);
      case EApproval(_, _) => IssueConnections(d, e, now, c);
      case EPersist(_, _) => LateConnections(d, e, now, c);
      case ERelease(_, _) => LateConnections(d, e, now, c);
      case _ =>
    }
  }

  /** The event is the reply that gives the connection this challenge. */
  ghost predicate IssuedBy(d: Daemon, event: Event, now: int, c: nat, challenge: Challenge, pairsKey: bool) {
    && challenge.id == d.nextChallenge && challenge.expiresAt == now + 30_000
    && if pairsKey then
         event.EApproval? && event.approved && event.t < |d.tasks| && d.tasks[event.t] == Task(c, AwaitApproval(challenge.identity))
       else event.ELookup? && event.answer == Paired && event.t < |d.tasks| && d.tasks[event.t] == Task(c, AwaitLookup(challenge.identity))
  }

  lemma {:induction false} ChallengeBegins(x: Execution, i: nat, c: nat) returns (b: nat)
    requires Behaves(x) && i < |x.states| && c < |x.states[i].connections| && x.states[i].connections[c].challenge.Some?
    ensures b < i
    ensures var connection := x.states[i].connections[c];
            IssuedBy(x.states[b], x.events[b].event, x.events[b].now, c, connection.challenge.value, connection.pairsKey)
    decreases i
  {
    hide Step, IssuedBy;
    ConnectionsMove(x, i - 1, c);
    if c < |x.states[i - 1].connections| && x.states[i].connections[c].challenge == x.states[i - 1].connections[c].challenge
       && x.states[i].connections[c].pairsKey == x.states[i - 1].connections[c].pairsKey {
      b := ChallengeBegins(x, i - 1, c);
    } else {
      b := i - 1;
    }
  }

  /** A connection that has any role said a verified hello before, as its first. */
  lemma {:induction false} RoleBegins(x: Execution, i: nat, c: nat) returns (h: nat)
    requires Behaves(x) && i < |x.states| && c < |x.states[i].connections| && x.states[i].connections[c].role != Unauthenticated
    ensures h < i && x.events[h].event == EHello(c, true)
    ensures c < |x.states[h].connections| && x.states[h].connections[c].role == Unauthenticated
    decreases i
  {
    hide Step, IssuedBy;
    ConnectionsMove(x, i - 1, c);
    if x.states[i - 1].connections[c].role != Unauthenticated {
      h := RoleBegins(x, i - 1, c);
    } else {
      var event := x.events[i - 1].event;
      if event.ERelease? {
        RunKeepsProvenance(x, i - 1);
      }
      h := i - 1;
    }
  }

  lemma {:induction false} BrowserBegins(x: Execution, i: nat, c: nat) returns (r: nat)
    requires Behaves(x) && i < |x.states| && c < |x.states[i].connections| && x.states[i].connections[c].role.Browser?
    ensures r < i && x.events[r].event.ERelease? && x.events[r].event.ok
    ensures var d, t := x.states[r], x.events[r].event.t;
            && t < |d.tasks| && d.tasks[t].connection == c && d.tasks[t].stage.AwaitRelease?
            && x.states[i].connections[c].role == Browser(d.tasks[t].stage.released.identity.browserInstanceId)
    decreases i
  {
    hide Step, IssuedBy;
    ConnectionsMove(x, i - 1, c);
    if x.states[i].connections[c].role == x.states[i - 1].connections[c].role {
      r := BrowserBegins(x, i - 1, c);
    } else {
      r := i - 1;
    }
  }

  /** The events behind a proven challenge: the verified hello, the call, the reply that issued it, and the answer. */
  ghost predicate Exchange(x: Execution, c: nat, identity: Identity, pairsKey: bool, h: nat, a: nat, b: nat, p: nat)
    requires Behaves(x)
  {
    && h < a < b < p < |x.events|
    && x.events[h].event == EHello(c, true)
    && c < |x.states[h].connections| && x.states[h].connections[c].role == Unauthenticated
    && x.events[a].event == (if pairsKey then EPair(c, identity) else EStart(c, identity))
    && x.events[b].event == (if pairsKey then EApproval(|x.states[a].tasks|, true) else ELookup(|x.states[a].tasks|, Paired))
    && var id := x.states[b].nextChallenge;
       && x.events[p].event == EComplete(c, id, Signed(identity.publicKey, id, identity))
       && x.events[p].now < x.events[b].now + 30_000
  }

  /** The exchange behind an answer that first a task. */
  lemma ExchangeBegins(x: Execution, p: nat, c: nat, challenge: Challenge) returns (h: nat, a: nat, b: nat)
    requires Behaves(x) && p < |x.events| && c < |x.states[p].connections|
    requires AnsweredBy(x.states[p].connections[c], c, challenge, x.events[p].event, x.events[p].now)
    ensures Exchange(x, c, challenge.identity, x.states[p].connections[c].pairsKey, h, a, b, p)
  {
    hide Step;
    b := ChallengeBegins(x, p, c);
    a := TaskBegins(x, b, x.events[b].event.t);
    h := RoleBegins(x, a, c);
  }

  /**
   * Browser authority in terms of events alone. A connection has the browser role for an instance only if,
   * in this order, it said a verified hello as its first; its identity was looked up as paired, or its pairing
   * was approved, on that connection; it answered the challenge this issued with the key's signature over that
   * challenge and identity within thirty seconds; a key that was to be paired was stored; and its agent context
   * was released.
   */
  lemma AuthorityOverEvents(x: Execution, i: nat, c: nat)
      returns (identity: Identity, pairsKey: bool, h: nat, a: nat, b: nat, p: nat, r: nat)
    requires Behaves(x) && i < |x.states| && c < |x.states[i].connections| && x.states[i].connections[c].role.Browser?
    ensures x.states[i].connections[c].role == Browser(identity.browserInstanceId)
    ensures p < r < i && Exchange(x, c, identity, pairsKey, h, a, b, p)
    ensures x.events[r].event == ERelease(|x.states[p].tasks|, true)
    ensures pairsKey ==> exists s :: p < s < r && x.events[s].event == EPersist(|x.states[p].tasks|, true)
  {
    hide Step, Exchange;
    r := BrowserBegins(x, i, c);
    var t := x.events[r].event.t;
    var challenge := x.states[r].tasks[t].stage.released;
    p := TaskBegins(x, r, t);
    identity, pairsKey := challenge.identity, x.states[p].connections[c].pairsKey;
    h, a, b := ExchangeBegins(x, p, c, challenge);
  }

  /** A key goes to the store only after its own approved pairing and its own proof, all on one authenticated connection. */
  lemma StoreOverEvents(x: Execution, s: nat, t: nat, ok: bool) returns (h: nat, a: nat, b: nat, p: nat)
    requires Behaves(x) && s < |x.events| && x.events[s].event == EPersist(t, ok)
    requires t < |x.states[s].tasks| && x.states[s].tasks[t].stage.AwaitPersist?
    ensures p < s && Exchange(x, x.states[s].tasks[t].connection, x.states[s].tasks[t].stage.persisted.identity, true, h, a, b, p)
  {
    hide Step, Exchange;
    p := TaskBegins(x, s, t);
    h, a, b := ExchangeBegins(x, p, x.states[s].tasks[t].connection, x.states[s].tasks[t].stage.persisted);
  }

  // ---------------------------------------------- prompts and answers by event

  /** Event `j` shows a prompt. */
  ghost predicate Shows(x: Execution, j: nat)
    requires Behaves(x)
  {
    j < |x.events| && x.events[j].event.EPair?
    && |x.states[j + 1].tasks| == |x.states[j].tasks| + 1 && x.states[j + 1].tasks[|x.states[j].tasks|].stage.AwaitApproval?
  }

  /** Event `m` is the answer that ends a prompt. */
  ghost predicate Dismisses(x: Execution, m: nat)
    requires Behaves(x)
  {
    m < |x.events| && x.events[m].event.EApproval? && x.events[m].event.t < |x.states[m].tasks|
    && x.states[m].tasks[x.events[m].event.t].stage.AwaitApproval?
  }

  /** The history lists grow by exactly the prompts shown and dismissed. */
  lemma HistoryMoves(x: Execution, i: nat)
    requires Behaves(x) && Timely(x.events) && i < |x.events|
    ensures var d, e, now := x.states[i], x.states[i + 1], x.events[i].now;
            && e.prompts == (if Shows(x, i) then d.prompts + [now] else d.prompts)
            && e.dismissals == (if Dismisses(x, i) then d.dismissals + [now] else d.dismissals)
  {
    var d, e, now := x.states[i], x.events[i].event, x.events[i].now;
    assert StepsTo(x, i);
    RunKeepsExclusive(x, i);
    if e.EPair? && e.c < |d.connections| {
      PairExactly(x, i, e.c, e.identity);
      hide Step, MayPrompt, Recent, Cleared, Idle, Exclusive;
    } else if e.EApproval? {
      hide AuthPair, VerifySignature;
    } else {
      hide AuthPair, ApprovalReply, VerifySignature;
    }
  }

  lemma {:induction false} HistoryGrows(x: Execution, i: nat, k: nat)
    requires Behaves(x) && Timely(x.events) && i <= k < |x.states|
    ensures x.states[i].prompts <= x.states[k].prompts && x.states[i].dismissals <= x.states[k].dismissals
    decreases k
  {
    hide Shows, Dismisses, Step;
    if i < k {
      HistoryGrows(x, i, k - 1);
      HistoryMoves(x, k - 1);
    }
  }

  /** The event behind an entry of the dismissals. */
  lemma {:induction false} DismissalBegins(x: Execution, i: nat, n: nat) returns (m: nat)
    requires Behaves(x) && Timely(x.events) && i < |x.states| && n < |x.states[i].dismissals|
    ensures m < i && Dismisses(x, m) && |x.states[m].dismissals| == n && x.states[i].dismissals[n] == x.events[m].now
    decreases i
  {
    hide Shows, Dismisses, Step;
    assert i > 0;
    HistoryMoves(x, i - 1);
    if n < |x.states[i - 1].dismissals| {
      m := DismissalBegins(x, i - 1, n);
    } else {
      m := i - 1;
    }
  }

  /** When a prompt is shown, every earlier one has been dismissed. */
  lemma ShownAlone(x: Execution, j: nat)
    requires Behaves(x) && Timely(x.events) && Shows(x, j)
    ensures |x.states[j].prompts| == |x.states[j].dismissals|
    ensures x.states[j + 1].prompts == x.states[j].prompts + [x.events[j].now] && x.states[j + 1].dismissals == x.states[j].dismissals
  {
    hide Step, Recent;
    var e := x.events[j].event;
    assert StepsTo(x, j);
    HistoryMoves(x, j);
    RunKeepsPrompts(x, j);
    if e.c < |x.states[j].connections| {
      PairExactly(x, j, e.c, e.identity);
    } else {
      AbsentPairsNothing(x.states[j], e, x.events[j].now);
    }
  }

  lemma AbsentPairsNothing(d: Daemon, e: Event, now: int)
    requires e.EPair? && e.c >= |d.connections|
    ensures Step(d, e, now) == d
  {
  }

  /** Between two prompts, of any connections, a prompt was dismissed at least thirty seconds before the second. */
  lemma PromptsApart(x: Execution, j: nat, k: nat) returns (m: nat)
    requires Behaves(x) && Timely(x.events) && j < k && Shows(x, j) && Shows(x, k)
    ensures j < m < k && Dismisses(x, m) && x.events[m].now + 30_000 <= x.events[k].now
  {
    hide Step, Shows, Dismisses;
    ShownBefore(x, j, k);
    var n := |x.states[j].prompts|;
    m := DismissalBegins(x, k, n);
    if m <= j {
      HistoryMoves(x, m);
      HistoryGrows(x, m + 1, j + 1);
    }
    PromptAdmission(x, k + 1);
    assert x.states[k + 1].dismissals[n] + PAIRING_PROMPT_COOLDOWN_MS <= x.states[k + 1].prompts[|x.states[k].prompts|];
  }

  lemma ShownBefore(x: Execution, j: nat, k: nat)
    requires Behaves(x) && Timely(x.events) && j < k && Shows(x, j) && Shows(x, k)
    ensures k < |x.events| && |x.states[j].prompts| == |x.states[j].dismissals| == |x.states[j + 1].dismissals|
    ensures |x.states[j].prompts| < |x.states[k].prompts| == |x.states[k].dismissals|
    ensures x.states[k + 1].dismissals == x.states[k].dismissals
    ensures x.states[k + 1].prompts == x.states[k].prompts + [x.events[k].now]
    ensures x.states[k + 1].prompts[|x.states[j].prompts|] == x.events[j].now
  {
    ShownAlone(x, j);
    ShownAlone(x, k);
    HistoryGrows(x, j + 1, k);
    hide Shows;
  }

  /** From any prompt to the third one after it at least ten minutes pass. */
  lemma PromptsSpaced(x: Execution, j: nat, k: nat, l: nat, m: nat)
    requires Behaves(x) && Timely(x.events) && j < k < l < m && Shows(x, j) && Shows(x, k) && Shows(x, l) && Shows(x, m)
    ensures x.events[j].now + 600_000 <= x.events[m].now
  {
    hide Step, Shows;
    ShownBefore(x, j, k);
    ShownBefore(x, k, l);
    ShownBefore(x, l, m);
    ShownBefore(x, j, m);
    PromptAdmission(x, m + 1);
    assert x.states[m + 1].prompts[|x.states[j].prompts|] + GLOBAL_PAIRING_ATTEMPT_WINDOW_MS
           <= x.states[m + 1].prompts[|x.states[m].prompts|];
  }

  /** The log only grows. */
  lemma StepLogs(d: Daemon, e: Event, now: int)
    ensures d.log <= Step(d, e, now).log
  {
    hide AdmitPrompt, VerifySignature, ClearExpired;
  }

  lemma {:induction false} LogGrows(x: Execution, i: nat, k: nat)
    requires Behaves(x) && i <= k < |x.states|
    ensures x.states[i].log <= x.states[k].log
    decreases k
  {
    hide Step;
    if i < k {
      LogGrows(x, i, k - 1);
      assert StepsTo(x, k - 1);
      StepLogs(x.states[k - 1], x.events[k - 1].event, x.events[k - 1].now);
    }
  }

  /** Event `p` answers a live challenge of this identifier. */
  ghost predicate Answers(x: Execution, p: nat, id: nat)
    requires Behaves(x)
  {
    p < |x.events| && x.events[p].event.EComplete? && x.events[p].event.challengeId == id
    && x.events[p].event.c < |x.states[p].connections|
    && Meets(x.states[p].connections[x.events[p].event.c], id, x.events[p].now)
  }

  /** A challenge that was answered is never met by another answer, whichever connection it comes from. */
  lemma AnsweredOnce(x: Execution, p: nat, q: nat, id: nat)
    requires Behaves(x) && p < q && Answers(x, p, id)
    ensures !Answers(x, q, id)
  {
    hide Step;
    if q < |x.events| {
      ConsumedStays(x, p, q, id);
    }
  }

  lemma ConsumedStays(x: Execution, p: nat, q: nat, id: nat)
    requires Behaves(x) && p < q < |x.states| && Answers(x, p, id)
    ensures ConsumedIn(x.states[q].log, id) && Unspent(x.states[q])
  {
    ChallengeConsumedOnce(x, q);
    LogGrows(x, p + 1, q);
    ConsumesIt(x, p, id);
    hide Step, Answers;
    var n :| 0 <= n < |x.states[p + 1].log| && x.states[p + 1].log[n].Consumed? && x.states[p + 1].log[n].challenge.id == id;
    assert x.states[q].log[n] == x.states[p + 1].log[n];
  }

  lemma ConsumesIt(x: Execution, p: nat, id: nat)
    requires Behaves(x) && Answers(x, p, id)
    ensures ConsumedIn(x.states[p + 1].log, id)
  {
    assert StepsTo(x, p);
    var d, e := x.states[p], x.states[p + 1];
    assert e.log[|d.log|].Consumed? && e.log[|d.log|].challenge.id == id;
  }

  // ---------------------------------------------------------------- replies

  lemma HelloReplies(d: Daemon, c: nat, verified: bool)
    requires c < |d.connections|
    ensures match Hello(d, c, verified).1
            case AgentReady => d.connections[c].role == Unauthenticated && verified
            case Refused(AlreadyAuthenticated) => d.connections[c].role != Unauthenticated
            case Refused(AuthenticationFailed) => d.connections[c].role == Unauthenticated && !verified
            case _ => false
  {
  }

  /** What a caller without a free agent connection is told. */
  ghost predicate NotFree(connection: Connection, code: Code, now: int) {
    match code
    case AuthenticationRequired => connection.role == Unauthenticated
    case AlreadyAuthenticated => connection.role.Browser?
    case AuthenticationBusy => connection.role == Agent && !Idle(connection, now)
    case _ => false
  }

  /** Each reply of the authentication calls is true of the connection and the limits it met. */
  lemma StartReplies(d: Daemon, c: nat, identity: Identity, now: int)
    requires c < |d.connections|
    ensures var reply := AuthStart(d, c, identity, now).1;
            if reply.Suspended? then reply.task == |d.tasks| && Idle(d.connections[c], now)
            else reply.Refused? && NotFree(d.connections[c], reply.code, now)
  {
  }

  /** The limit that refuses a pairing request on a free connection. */
  ghost predicate LimitReached(d: Daemon, c: nat, code: Code, now: int)
    requires c < |d.connections|
  {
    match code
    case PairingRateLimit => |Recent(d.connections[c].attempts, now, 300_000)| >= 3
    case PairingBusy => d.promptActive
    case PairingCooldown => d.lastPromptAt.Some? && now < d.lastPromptAt.value + 30_000
    case PairingGlobalRateLimit => |Recent(d.globalAttempts, now, 600_000)| >= 3
    case _ => false
  }

  lemma PairReplies(d: Daemon, c: nat, identity: Identity, clock: int, now: int)
    requires c < |d.connections| && AttemptsOrdered(d, clock)
    ensures var reply := AuthPair(d, c, identity, now).1;
            if reply.Suspended? then reply.task == |d.tasks| && Idle(d.connections[c], now) && MayPrompt(d, c, now)
            else reply.Refused? && (NotFree(d.connections[c], reply.code, now) || LimitReached(d, c, reply.code, now))
  {
    AdmissionExactly(d, c, clock, now);
    hide AdmitPrompt, MayPrompt, Recent, AttemptsOrdered;
    assert AdmitPrompt(d, ClearExpired(d.connections[c], now).attempts, now) == AdmitPrompt(d, d.connections[c].attempts, now);
  }

  lemma CompleteReplies(d: Daemon, c: nat, challengeId: nat, signature: Signature, now: int)
    requires c < |d.connections|
    ensures var reply, connection := AuthComplete(d, c, challengeId, signature, now).1, d.connections[c];
            if reply.Suspended? then reply.task == |d.tasks| && Meets(connection, challengeId, now)
            else
              && reply.Refused?
              && if reply.code != ProofRejected then NotFree(connection, reply.code, now)
                 else
                   && connection.role == Agent
                   && (!Meets(connection, challengeId, now)
                       || var challenge := connection.challenge.value;
                          signature != Signed(challenge.identity.publicKey, challenge.id, challenge.identity))
  {
  }

  lemma LaterReplies(d: Daemon, t: nat, now: int)
    requires Resumable(d, t)
    ensures d.tasks[t].stage.AwaitLookup? ==>
              && LookupReply(d, t, Thrown, now).1 == Refused(LookupFailed) && LookupReply(d, t, Unpaired, now).1 == NotPaired
              && LookupReply(d, t, Paired, now).1 == ChallengeSent(Challenge(d.nextChallenge, d.tasks[t].stage.start, now + 30_000))
    ensures d.tasks[t].stage.AwaitApproval? ==>
              && ApprovalReply(d, t, false, now).1 == Refused(PairingDenied)
              && ApprovalReply(d, t, true, now).1 == ChallengeSent(Challenge(d.nextChallenge, d.tasks[t].stage.pairing, now + 30_000))
    ensures d.tasks[t].stage.AwaitPersist? ==> PersistReply(d, t, false).1 == Refused(PersistFailed) && PersistReply(d, t, true).1 == Suspended(t)
    ensures d.tasks[t].stage.AwaitRelease? ==> ReleaseReply(d, t, false).1 == Refused(ReleaseFailed) && ReleaseReply(d, t, true).1 == BrowserReady
  {
  }
}
