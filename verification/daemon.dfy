/** The broker daemon's handler closures, segment by segment, proved against the pairing protocol. */
module BrokerDaemonModel {
  import opened Wrappers
  import opened Pairing

  /**
   * Daemon-wide fields, the closure variables of every connection, and the handlers that the
   * JavaScript runtime holds suspended (`tasks`). The ghost fields are the history of the run.
   */
  class BrokerDaemon {
    var connections: seq<Connection>
    var tasks: seq<Task>
    var pairingPromptActive: bool
    var lastPairingPromptAt: Option<int>
    var globalPairingAttempts: seq<int>
    var nextChallenge: nat
    ghost var log: seq<Entry>
    ghost var prompts: seq<int>
    ghost var dismissals: seq<int>

    constructor ()
      ensures View() == Start()
    {
      connections, tasks := [], [];
      pairingPromptActive, lastPairingPromptAt, globalPairingAttempts := false, None, [];
      nextChallenge := 0;
      log, prompts, dismissals := [], [], [];
    }

    ghost function View(): Daemon
      reads this
    {
      Daemon(connections, tasks, pairingPromptActive, lastPairingPromptAt, globalPairingAttempts, nextChallenge, log, prompts, dismissals)
    }

    /** A new socket: fresh closure variables. */
    method AcceptSocket()
      modifies this
      ensures View() == Accept(old(View()))
    {
      connections := connections + [FreshConnection()];
    }

    /** `session.hello`; `verified` is the answer of the broker-secret check. */
    method SessionHello(c: nat, verified: bool) returns (reply: Reply)
      requires c < |connections|
      modifies this
      ensures (View(), reply) == Hello(old(View()), c, verified)
    {
      if connections[c].role != Unauthenticated {
        return Refused(AlreadyAuthenticated);
      }
      if !verified {
        return Refused(AuthenticationFailed);
      }
      connections := connections[c := connections[c].(role := Agent)];
      return AgentReady;
    }

    method RequireAgentContext(c: nat) returns (refusal: Option<Code>)
      requires c < |connections|
      ensures refusal == AgentRefusal(connections[c])
    {
      match connections[c].role {
        case Unauthenticated => return Some(AuthenticationRequired);
        case Agent => return None;
        case Browser(_) => return Some(AlreadyAuthenticated);
      }
    }

    method ClearExpiredBrowserChallenge(c: nat, now: int)
      requires c < |connections|
      modifies this`connections
      ensures connections == old(connections)[c := ClearExpired(old(connections)[c], now)]
    {
      var connection := connections[c];
      if connection.challenge.Some? && connection.challenge.value.expiresAt <= now {
        connections := connections[c := connection.(challenge := None, pairsKey := false)];
      }
    }

    method ReserveBrowserAuthTransition(c: nat, now: int) returns (reserved: bool)
      requires c < |connections|
      modifies this`connections
      ensures var cleared := ClearExpired(old(connections)[c], now);
              && reserved == MayReserve(cleared)
              && connections == old(connections)[c := if reserved then cleared.(transitionActive := true) else cleared]
    {
      ClearExpiredBrowserChallenge(c, now);
      if connections[c].transitionActive || connections[c].challenge != None {
        return false;
      }
      connections := connections[c := connections[c].(transitionActive := true)];
      return true;
    }

    /** `browser.auth.start` up to the pairing lookup. */
    method BrowserAuthStart(c: nat, start: Identity, now: int) returns (reply: Reply)
      requires c < |connections|
      modifies this
      ensures (View(), reply) == AuthStart(old(View()), c, start, now)
    {
      var refusal := RequireAgentContext(c);
      if refusal.Some? {
        return Refused(refusal.value);
      }
      var reserved := ReserveBrowserAuthTransition(c, now);
      if !reserved {
        return Refused(AuthenticationBusy);
      }
      tasks := tasks + [Task(c, AwaitLookup(start))];
      return Suspended(|tasks| - 1);
    }

    method IssueChallenge(c: nat, identity: Identity, pairsKey: bool, now: int) returns (reply: Reply)
      requires c < |connections|
      modifies this
      ensures (View(), reply) == Issue(old(View()), c, identity, pairsKey, now)
    {
      var challenge := Challenge(nextChallenge, identity, now + BROWSER_CHALLENGE_TTL_MS);
      nextChallenge := nextChallenge + 1;
      connections := connections[c := connections[c].(challenge := Some(challenge), pairsKey := pairsKey)];
      log := log + [Issued(c, challenge)];
      connections := connections[c := connections[c].(transitionActive := false)];
      assert connections == Issue(old(View()), c, identity, pairsKey, now).0.connections;
      return ChallengeSent(challenge);
    }

    /** `browser.auth.start` after the pairing lookup answered or threw. */
    method BrowserLookupReply(t: nat, answer: LookupAnswer, now: int) returns (reply: Reply)
      requires Resumable(View(), t) && tasks[t].stage.AwaitLookup?
      modifies this
      ensures (View(), reply) == LookupReply(old(View()), t, answer, now)
    {
      var c, start := tasks[t].connection, tasks[t].stage.start;
      tasks := tasks[t := tasks[t].(stage := Finished)];
      if answer == Thrown {
        connections := connections[c := connections[c].(transitionActive := false)];
        return Refused(LookupFailed);
      }
      log := log + [LookedUp(c, start, answer == Paired)];
      if answer == Unpaired {
        connections := connections[c := connections[c].(transitionActive := false)];
        return NotPaired;
      }
      reply := IssueChallenge(c, start, false, now);
    }

    /** Forgets the connection's attempts that left the window, then counts this one. */
    method ReservePairingAttempt(c: nat, now: int) returns (allowed: bool)
      requires c < |connections|
      modifies this`connections
      ensures var kept := DropOld(old(connections)[c].attempts, now, PAIRING_ATTEMPT_WINDOW_MS);
              && allowed == (|kept| < PAIRING_ATTEMPTS_PER_CONNECTION)
              && connections == old(connections)[c := old(connections)[c].(attempts := if allowed then kept + [now] else kept)]
    {
      var attempts := connections[c].attempts;
      while |attempts| > 0 && attempts[0] <= now - PAIRING_ATTEMPT_WINDOW_MS
        invariant DropOld(attempts, now, PAIRING_ATTEMPT_WINDOW_MS) == DropOld(connections[c].attempts, now, PAIRING_ATTEMPT_WINDOW_MS)
        decreases |attempts|
      {
        attempts := attempts[1..];
      }
      connections := connections[c := connections[c].(attempts := attempts)];
      if |attempts| >= PAIRING_ATTEMPTS_PER_CONNECTION {
        return false;
      }
      connections := connections[c := connections[c].(attempts := attempts + [now])];
      return true;
    }

    /** The same over the attempts of all connections. */
    method ReserveGlobalPairingAttempt(now: int) returns (allowed: bool)
      modifies this`globalPairingAttempts
      ensures var kept := DropOld(old(globalPairingAttempts), now, GLOBAL_PAIRING_ATTEMPT_WINDOW_MS);
              && allowed == (|kept| < GLOBAL_PAIRING_ATTEMPTS)
              && globalPairingAttempts == if allowed then kept + [now] else kept
    {
      while |globalPairingAttempts| > 0 && globalPairingAttempts[0] <= now - GLOBAL_PAIRING_ATTEMPT_WINDOW_MS
        invariant DropOld(globalPairingAttempts, now, GLOBAL_PAIRING_ATTEMPT_WINDOW_MS)
               == DropOld(old(globalPairingAttempts), now, GLOBAL_PAIRING_ATTEMPT_WINDOW_MS)
        decreases |globalPairingAttempts|
      {
        globalPairingAttempts := globalPairingAttempts[1..];
      }
      if |globalPairingAttempts| >= GLOBAL_PAIRING_ATTEMPTS {
        return false;
      }
      globalPairingAttempts := globalPairingAttempts + [now];
      return true;
    }

    /** The limits of `browser.auth.pair`, once its transition is reserved. */
    method AdmitPairing(c: nat, now: int) returns (refusal: Option<Code>)
      requires c < |connections|
      modifies this`connections, this`globalPairingAttempts
      ensures var admission := AdmitPrompt(old(View()), old(connections)[c].attempts, now);
              && refusal == admission.refusal
              && globalPairingAttempts == admission.globalAttempts
              && connections == old(connections)[c := old(connections)[c].(attempts := admission.attempts)]
    {
      var allowed := ReservePairingAttempt(c, now);
      if !allowed {
        return Some(PairingRateLimit);
      }
      if pairingPromptActive {
        return Some(PairingBusy);
      }
      if lastPairingPromptAt.Some? && now - lastPairingPromptAt.value < PAIRING_PROMPT_COOLDOWN_MS {
        return Some(PairingCooldown);
      }
      var globallyAllowed := ReserveGlobalPairingAttempt(now);
      return if globallyAllowed then None else Some(PairingGlobalRateLimit);
    }

    /** `browser.auth.pair` up to the approval prompt. */
    method BrowserAuthPair(c: nat, pairing: Identity, now: int) returns (reply: Reply)
      requires c < |connections|
      modifies this
      ensures (View(), reply) == AuthPair(old(View()), c, pairing, now)
    {
      var refusal := RequireAgentContext(c);
      if refusal.Some? {
        return Refused(refusal.value);
      }
      var reserved := ReserveBrowserAuthTransition(c, now);
      if !reserved {
        return Refused(AuthenticationBusy);
      }
      refusal := AdmitPairing(c, now);
      if refusal.Some? {
        connections := connections[c := connections[c].(transitionActive := false)];
        assert connections == AuthPair(old(View()), c, pairing, now).0.connections;
        return Refused(refusal.value);
      }
      pairingPromptActive := true;
      prompts := prompts + [now];
      tasks := tasks + [Task(c, AwaitApproval(pairing))];
      assert connections == AuthPair(old(View()), c, pairing, now).0.connections;
      return Suspended(|tasks| - 1);
    }

    /** `browser.auth.pair` after the prompt was answered; a prompt that throws counts as a refusal. */
    method PairingApprovalReply(t: nat, approved: bool, now: int) returns (reply: Reply)
      requires Resumable(View(), t) && tasks[t].stage.AwaitApproval?
      modifies this
      ensures (View(), reply) == ApprovalReply(old(View()), t, approved, now)
    {
      var c, pairing := tasks[t].connection, tasks[t].stage.pairing;
      tasks := tasks[t := tasks[t].(stage := Finished)];
      pairingPromptActive := false;
      lastPairingPromptAt := Some(now);
      dismissals := dismissals + [now];
      if !approved {
        connections := connections[c := connections[c].(transitionActive := false)];
        return Refused(PairingDenied);
      }
      log := log + [Approved(c, pairing)];
      reply := IssueChallenge(c, pairing, true, now);
    }

    /** `browser.auth.complete` up to its first write. */
    method BrowserAuthComplete(c: nat, challengeId: nat, signature: Signature, now: int) returns (reply: Reply)
      requires c < |connections|
      modifies this
      ensures (View(), reply) == AuthComplete(old(View()), c, challengeId, signature, now)
    {
      var refusal := RequireAgentContext(c);
      if refusal.Some? {
        return Refused(refusal.value);
      }
      ClearExpiredBrowserChallenge(c, now);
      var connection := connections[c];
      if connection.transitionActive || connection.challenge == None || connection.challenge.value.id != challengeId {
        return Refused(ProofRejected);
      }
      var challenge, pairsKey := connection.challenge.value, connection.pairsKey;
      connections := connections[c := connection.(challenge := None, pairsKey := false, transitionActive := true)];
      log := log + [Consumed(c, challenge)];
      if !VerifySignature(challenge, signature, now) {
        connections := connections[c := connections[c].(transitionActive := false)];
        assert connections == AuthComplete(old(View()), c, challengeId, signature, now).0.connections;
        return Refused(ProofRejected);
      }
      log := log + [Proved(c, challenge, signature, now)];
      if pairsKey {
        tasks := tasks + [Task(c, AwaitPersist(challenge))];
      } else {
        tasks := tasks + [Task(c, AwaitRelease(challenge))];
      }
      assert connections == AuthComplete(old(View()), c, challengeId, signature, now).0.connections;
      return Suspended(|tasks| - 1);
    }

    /** `browser.auth.complete` after the approved key was written, or the write threw. */
    method PairingPersisted(t: nat, stored: bool) returns (reply: Reply)
      requires Resumable(View(), t) && tasks[t].stage.AwaitPersist?
      modifies this
      ensures (View(), reply) == PersistReply(old(View()), t, stored)
    {
      var c, challenge := tasks[t].connection, tasks[t].stage.persisted;
      if !stored {
        tasks := tasks[t := tasks[t].(stage := Finished)];
        connections := connections[c := connections[c].(transitionActive := false)];
        return Refused(PersistFailed);
      }
      log := log + [Stored(c, challenge.identity)];
      tasks := tasks[t := tasks[t].(stage := AwaitRelease(challenge))];
      return Suspended(t);
    }

    /** `browser.auth.complete` after the agent context was released, or releasing it threw. */
    method AgentContextReleased(t: nat, released: bool) returns (reply: Reply)
      requires Resumable(View(), t) && tasks[t].stage.AwaitRelease?
      modifies this
      ensures (View(), reply) == ReleaseReply(old(View()), t, released)
    {
      var c, challenge := tasks[t].connection, tasks[t].stage.released;
      tasks := tasks[t := tasks[t].(stage := Finished)];
      if released {
        connections := connections[c := connections[c].(role := Browser(challenge.identity.browserInstanceId))];
      }
      connections := connections[c := connections[c].(transitionActive := false)];
      assert connections == ReleaseReply(old(View()), t, released).0.connections;
      return if released then BrowserReady else Refused(ReleaseFailed);
    }
  }
}
