/** What every run of the pairing protocol keeps: authority, exclusion and prompt admission. */
module PairingProofs {
  import opened Wrappers
  import opened Pairing

  // -------------------------------------------- transitions exclude each other

  predicate Live(d: Daemon, t: nat, c: nat) {
    t < |d.tasks| && d.tasks[t].stage != Finished && d.tasks[t].connection == c
  }

  /**
   * A connection has at most one suspended transition, its flag says whether it has one, and a
   * suspended transition and a live challenge never coexist.
   */
  ghost predicate Exclusive(d: Daemon) {
    && (forall t | 0 <= t < |d.tasks| :: d.tasks[t].connection < |d.connections|)
    && (forall t, u | 0 <= t < u < |d.tasks| && d.tasks[t].stage != Finished && d.tasks[u].stage != Finished ::
          d.tasks[t].connection != d.tasks[u].connection)
    && (forall t | 0 <= t < |d.tasks| && d.tasks[t].stage != Finished :: d.connections[d.tasks[t].connection].transitionActive)
    && (forall c | 0 <= c < |d.connections| && d.connections[c].transitionActive :: exists t :: Live(d, t, c))
    && (forall c | 0 <= c < |d.connections| && d.connections[c].transitionActive :: d.connections[c].challenge == None)
  }

  /** A step that touches no task and no transition flag keeps `Exclusive`. */
  lemma QuietKeepsExclusive(d: Daemon, e: Daemon)
    requires Exclusive(d)
    requires e.tasks == d.tasks && |e.connections| >= |d.connections|
    requires forall c | 0 <= c < |d.connections| :: e.connections[c].transitionActive == d.connections[c].transitionActive
    requires forall c | |d.connections| <= c < |e.connections| :: !e.connections[c].transitionActive
    requires forall c | 0 <= c < |e.connections| && e.connections[c].transitionActive :: e.connections[c].challenge == None
    ensures Exclusive(e)
  {
    forall c | 0 <= c < |e.connections| && e.connections[c].transitionActive ensures exists t :: Live(e, t, c) {
      var t :| Live(d, t, c);
      assert Live(e, t, c);
    }
  }

  /** A step that starts a transition on an idle connection keeps `Exclusive`. */
  lemma SuspendKeepsExclusive(d: Daemon, e: Daemon, c: nat, stage: Stage)
    requires Exclusive(d) && c < |d.connections| && stage != Finished
    requires !d.connections[c].transitionActive
    requires e.tasks == d.tasks + [Task(c, stage)]
    requires |e.connections| == |d.connections| && e.connections[c].transitionActive && e.connections[c].challenge == None
    requires forall k | 0 <= k < |d.connections| && k != c :: e.connections[k] == d.connections[k]
    ensures Exclusive(e)
  {
    forall k | 0 <= k < |e.connections| && e.connections[k].transitionActive ensures exists t :: Live(e, t, k) {
      if k == c {
        assert Live(e, |d.tasks|, c);
      } else {
        var t :| Live(d, t, k);
        assert Live(e, t, k);
      }
    }
  }

  /** A step that finishes the one transition of a connection keeps `Exclusive`. */
  lemma FinishKeepsExclusive(d: Daemon, e: Daemon, t: nat)
    requires Exclusive(d) && t < |d.tasks| && d.tasks[t].stage != Finished
    requires e.tasks == d.tasks[t := d.tasks[t].(stage := Finished)]
    requires |e.connections| == |d.connections| && !e.connections[d.tasks[t].connection].transitionActive
    requires forall k | 0 <= k < |d.connections| && k != d.tasks[t].connection :: e.connections[k] == d.connections[k]
    ensures Exclusive(e)
  {
    forall k | 0 <= k < |e.connections| && e.connections[k].transitionActive ensures exists u :: Live(e, u, k) {
      var u :| Live(d, u, k);
      assert Live(e, u, k);
    }
  }

  lemma StartKeepsExclusive(d: Daemon, c: nat, start: Identity, now: int)
    requires Exclusive(d) && c < |d.connections|
    ensures Exclusive(AuthStart(d, c, start, now).0)
  {
    var after := AuthStart(d, c, start, now).0;
    if |after.tasks| > |d.tasks| {
      SuspendKeepsExclusive(d, after, c, AwaitLookup(start));
    } else {
      QuietKeepsExclusive(d, after);
    }
  }

  lemma PairKeepsExclusive(d: Daemon, c: nat, pairing: Identity, now: int)
    requires Exclusive(d) && c < |d.connections|
    ensures Exclusive(AuthPair(d, c, pairing, now).0)
  {
    var after := AuthPair(d, c, pairing, now).0;
    if |after.tasks| > |d.tasks| {
      SuspendKeepsExclusive(d, after, c, AwaitApproval(pairing));
    } else {
      QuietKeepsExclusive(d, after);
    }
  }

  lemma CompleteKeepsExclusive(d: Daemon, c: nat, challengeId: nat, signature: Signature, now: int)
    requires Exclusive(d) && c < |d.connections|
    ensures Exclusive(AuthComplete(d, c, challengeId, signature, now).0)
  {
    var after := AuthComplete(d, c, challengeId, signature, now).0;
    if |after.tasks| > |d.tasks| {
      SuspendKeepsExclusive(d, after, c, after.tasks[|d.tasks|].stage);
    } else {
      QuietKeepsExclusive(d, after);
    }
  }

  lemma ReplyKeepsExclusive(d: Daemon, e: Event, now: int)
    requires Exclusive(d) && Enabled(d, e)
    requires e.ELookup? || e.EApproval? || e.EPersist? || e.ERelease?
    ensures Exclusive(Step(d, e, now))
  {
    var after := Step(d, e, now);
    if e.EPersist? && e.ok {
      MoveKeepsExclusive(d, after, e.t);
    } else {
      FinishKeepsExclusive(d, after, e.t);
    }
  }

  lemma StepKeepsExclusive(d: Daemon, e: Event, now: int)
    requires Exclusive(d)
    ensures Exclusive(Step(d, e, now))
  {
    if Enabled(d, e) {
      match e
      case EAccept => QuietKeepsExclusive(d, Accept(d));
      case EHello(c, verified) => QuietKeepsExclusive(d, Hello(d, c, verified).0);
      case EStart(c, identity) => StartKeepsExclusive(d, c, identity, now);
      case EPair(c, identity) => PairKeepsExclusive(d, c, identity, now);
      case EComplete(c, id, signature) => CompleteKeepsExclusive(d, c, id, signature, now);
      case _ => ReplyKeepsExclusive(d, e, now);
    }
  }

  /** A transition that moves to its next await keeps `Exclusive`. */
  lemma MoveKeepsExclusive(d: Daemon, e: Daemon, t: nat)
    requires Exclusive(d) && t < |d.tasks| && d.tasks[t].stage != Finished
    requires |e.tasks| == |d.tasks| && e.tasks[t].stage != Finished && e.tasks[t].connection == d.tasks[t].connection
    requires forall u | 0 <= u < |d.tasks| && u != t :: e.tasks[u] == d.tasks[u]
    requires e.connections == d.connections
    ensures Exclusive(e)
  {
    forall k | 0 <= k < |e.connections| && e.connections[k].transitionActive ensures exists u :: Live(e, u, k) {
      var u :| Live(d, u, k);
      assert Live(e, u, k);
    }
  }

  /** No transition and live challenge coexist on a connection at any await of any run. */
  lemma {:induction false} RunKeepsExclusive(x: Execution, i: nat)
    requires Behaves(x) && i < |x.states|
    ensures Exclusive(x.states[i])
  {
    if i > 0 {
      RunKeepsExclusive(x, i - 1);
      assert StepsTo(x, i - 1);
      hide Step, Exclusive;
      StepKeepsExclusive(x.states[i - 1], x.events[i - 1].event, x.events[i - 1].now);
    }
  }

  // ------------------------------------------------------- prompt admission

  predicate Prompting(d: Daemon, t: nat) {
    t < |d.tasks| && d.tasks[t].stage.AwaitApproval?
  }

  /** At most one approval prompt is showing on any connection, and the daemon's flag says whether. */
  ghost predicate OnePrompt(d: Daemon) {
    && (forall t, u | Prompting(d, t) && Prompting(d, u) :: t == u)
    && (d.promptActive <==> exists t :: Prompting(d, t))
    && |d.prompts| == |d.dismissals| + if d.promptActive then 1 else 0
  }

  /** Every prompt is dismissed no earlier than shown, and the next ones wait out the cooldown. */
  ghost predicate Cooled(prompts: seq<int>, dismissals: seq<int>) {
    && |dismissals| <= |prompts| <= |dismissals| + 1
    && (forall k | 0 <= k < |dismissals| :: prompts[k] <= dismissals[k])
    && (forall j, k | 0 <= j < |dismissals| && j < k < |prompts| :: dismissals[j] + PAIRING_PROMPT_COOLDOWN_MS <= prompts[k])
  }

  /** From any prompt to the third one after it, and to every later one, a global window passes. */
  ghost predicate Spaced(prompts: seq<int>) {
    forall j, k | 0 <= j && j + GLOBAL_PAIRING_ATTEMPTS <= k < |prompts| ::
      prompts[j] + GLOBAL_PAIRING_ATTEMPT_WINDOW_MS <= prompts[k]
  }

  /** `kept` is a tail of `all`, and whatever it forgot has left the window. */
  ghost predicate Remembers(kept: seq<int>, all: seq<int>, width: nat, clock: int) {
    && |kept| <= |all|
    && (forall i, j | 0 <= i < |kept| && 0 <= j < |all| && |all| - j == |kept| - i :: kept[i] == all[j])
    && (forall i | 0 <= i < |all| :: all[i] <= clock)
    && (forall i | 0 <= i < |all| - |kept| :: all[i] + width <= clock)
  }

  /** `lastPromptAt` is the latest dismissal. */
  ghost predicate Latest(last: Option<int>, dismissals: seq<int>, clock: int) {
    if last == None then dismissals == []
    else last.value <= clock && forall k | 0 <= k < |dismissals| :: dismissals[k] <= last.value
  }

  ghost predicate PromptsOk(d: Daemon, clock: int) {
    && OnePrompt(d)
    && Cooled(d.prompts, d.dismissals)
    && Spaced(d.prompts)
    && Latest(d.lastPromptAt, d.dismissals, clock)
    && |d.globalAttempts| <= GLOBAL_PAIRING_ATTEMPTS
    && Remembers(d.globalAttempts, d.prompts, GLOBAL_PAIRING_ATTEMPT_WINDOW_MS, clock)
  }

  /** The shifting loop forgets exactly attempts that left the window. */
  lemma {:induction false} DropOldRemembers(kept: seq<int>, all: seq<int>, width: nat, clock: int, now: int)
    requires Remembers(kept, all, width, clock) && clock <= now
    ensures Remembers(DropOld(kept, now, width), all, width, now)
    ensures |DropOld(kept, now, width)| <= |kept|
    decreases |kept|
  {
    if kept != [] && kept[0] <= now - width {
      var first := |all| - |kept|;
      assert all[first] == kept[0];
      DropOldRemembers(kept[1..], all, width, now, now);
    }
  }

  lemma CooledAfterPrompt(prompts: seq<int>, dismissals: seq<int>, last: Option<int>, clock: int, now: int)
    requires Cooled(prompts, dismissals) && Latest(last, dismissals, clock) && |prompts| == |dismissals|
    requires last.Some? ==> now - last.value >= PAIRING_PROMPT_COOLDOWN_MS
    ensures Cooled(prompts + [now], dismissals)
  {
  }

  lemma CooledAfterDismissal(prompts: seq<int>, dismissals: seq<int>, now: int)
    requires Cooled(prompts, dismissals) && |prompts| == |dismissals| + 1
    requires forall i | 0 <= i < |prompts| :: prompts[i] <= now
    ensures Cooled(prompts, dismissals + [now])
  {
  }

  lemma SpacedAfterPrompt(prompts: seq<int>, global: seq<int>, now: int)
    requires Spaced(prompts) && |global| < GLOBAL_PAIRING_ATTEMPTS
    requires Remembers(global, prompts, GLOBAL_PAIRING_ATTEMPT_WINDOW_MS, now)
    ensures Spaced(prompts + [now])
    ensures Remembers(global + [now], prompts + [now], GLOBAL_PAIRING_ATTEMPT_WINDOW_MS, now)
  {
  }

  /** A step that neither shows nor dismisses a prompt. */
  lemma QuietKeepsPrompts(d: Daemon, e: Daemon, clock: int, now: int)
    requires PromptsOk(d, clock) && clock <= now
    requires e.promptActive == d.promptActive && e.lastPromptAt == d.lastPromptAt
    requires e.globalAttempts == d.globalAttempts && e.prompts == d.prompts && e.dismissals == d.dismissals
    requires |e.tasks| >= |d.tasks|
    requires forall t | 0 <= t < |d.tasks| :: e.tasks[t].stage.AwaitApproval? == d.tasks[t].stage.AwaitApproval?
    requires forall t | |d.tasks| <= t < |e.tasks| :: !e.tasks[t].stage.AwaitApproval?
    ensures PromptsOk(e, now)
  {
    if d.promptActive {
      var t :| Prompting(d, t);
      assert Prompting(e, t);
    }
    assert forall t | Prompting(e, t) :: Prompting(d, t);
  }

  lemma SameTasksKeepOnePrompt(d: Daemon, e: Daemon)
    requires OnePrompt(d) && e.tasks == d.tasks && e.promptActive == d.promptActive
    requires e.prompts == d.prompts && e.dismissals == d.dismissals
    ensures OnePrompt(e)
  {
    if d.promptActive {
      var t :| Prompting(d, t);
      assert Prompting(e, t);
    }
    forall t, u | Prompting(e, t) && Prompting(e, u) ensures t == u {
      assert Prompting(d, t) && Prompting(d, u);
    }
    if t: nat :| Prompting(e, t) {
      assert Prompting(d, t);
    }
  }

  lemma ForgetKeepsPrompts(d: Daemon, e: Daemon, clock: int, now: int)
    requires PromptsOk(d, clock) && clock <= now
    requires e.tasks == d.tasks && e.promptActive == d.promptActive && e.lastPromptAt == d.lastPromptAt
    requires e.prompts == d.prompts && e.dismissals == d.dismissals
    requires |e.globalAttempts| <= GLOBAL_PAIRING_ATTEMPTS
    requires Remembers(e.globalAttempts, d.prompts, GLOBAL_PAIRING_ATTEMPT_WINDOW_MS, now)
    ensures PromptsOk(e, now)
  {
    SameTasksKeepOnePrompt(d, e);
  }

  lemma OnePromptShown(d: Daemon, e: Daemon)
    requires OnePrompt(d) && !d.promptActive && e.promptActive
    requires |e.tasks| == |d.tasks| + 1 && e.tasks[..|d.tasks|] == d.tasks && e.tasks[|d.tasks|].stage.AwaitApproval?
    requires |e.prompts| == |d.prompts| + 1 && e.dismissals == d.dismissals
    ensures OnePrompt(e)
  {
    assert Prompting(e, |d.tasks|);
    forall t: nat | Prompting(e, t) ensures t == |d.tasks| {
      if t < |d.tasks| {
        assert e.tasks[t] == e.tasks[..|d.tasks|][t];
        assert Prompting(d, t);
      }
    }
  }

  /** Showing a prompt, once the flag, the cooldown and the global list allow it. */
  lemma ShowKeepsPrompts(d: Daemon, e: Daemon, global: seq<int>, clock: int, now: int)
    requires PromptsOk(d, clock) && clock <= now && PromptRefusal(d, now) == None
    requires Remembers(global, d.prompts, GLOBAL_PAIRING_ATTEMPT_WINDOW_MS, now) && |global| < GLOBAL_PAIRING_ATTEMPTS
    requires e.promptActive && e.lastPromptAt == d.lastPromptAt && e.dismissals == d.dismissals
    requires e.globalAttempts == global + [now] && e.prompts == d.prompts + [now]
    requires |e.tasks| == |d.tasks| + 1 && e.tasks[..|d.tasks|] == d.tasks && e.tasks[|d.tasks|].stage.AwaitApproval?
    ensures PromptsOk(e, now)
  {
    OnePromptShown(d, e);
    CooledAfterPrompt(d.prompts, d.dismissals, d.lastPromptAt, clock, now);
    SpacedAfterPrompt(d.prompts, global, now);
  }

  /** The one way a prompt is admitted, and what a refusal leaves in the global list. */
  lemma AdmissionFacts(d: Daemon, attempts: seq<int>, now: int)
    ensures var admission := AdmitPrompt(d, attempts, now);
            var global := DropOld(d.globalAttempts, now, GLOBAL_PAIRING_ATTEMPT_WINDOW_MS);
            if admission.refusal == None then
              PromptRefusal(d, now) == None && |global| < GLOBAL_PAIRING_ATTEMPTS && admission.globalAttempts == global + [now]
            else admission.globalAttempts == d.globalAttempts || admission.globalAttempts == global
  {
  }

  lemma PairKeepsPrompts(d: Daemon, c: nat, pairing: Identity, clock: int, now: int)
    requires PromptsOk(d, clock) && clock <= now && c < |d.connections|
    ensures PromptsOk(AuthPair(d, c, pairing, now).0, now)
  {
    var cleared := ClearExpired(d.connections[c], now);
    if AgentRefusal(d.connections[c]).Some? {
      QuietKeepsPrompts(d, d, clock, now);
    } else if !MayReserve(cleared) {
      QuietKeepsPrompts(d, Update(d, c, cleared), clock, now);
    } else {
      var admission := AdmitPrompt(d, cleared.attempts, now);
      var counted := cleared.(attempts := admission.attempts);
      AdmissionFacts(d, cleared.attempts, now);
      DropOldRemembers(d.globalAttempts, d.prompts, GLOBAL_PAIRING_ATTEMPT_WINDOW_MS, clock, now);
      if admission.refusal.Some? {
        ForgetKeepsPrompts(d, Update(d, c, counted).(globalAttempts := admission.globalAttempts), clock, now);
      } else {
        var reserved := Update(d, c, counted.(transitionActive := true));
        QuietKeepsPrompts(d, reserved, clock, now);
        var global := DropOld(d.globalAttempts, now, GLOBAL_PAIRING_ATTEMPT_WINDOW_MS);
        ShowKeepsPrompts(reserved, ShowPrompt(reserved, c, pairing, admission.globalAttempts, now), global, now, now);
      }
    }
  }

  lemma ApprovalKeepsPrompts(d: Daemon, t: nat, approved: bool, clock: int, now: int)
    requires PromptsOk(d, clock) && clock <= now
    requires Resumable(d, t) && d.tasks[t].stage.AwaitApproval?
    ensures PromptsOk(ApprovalReply(d, t, approved, now).0, now)
  {
    var after := ApprovalReply(d, t, approved, now).0;
    assert Prompting(d, t);
    assert after.tasks == d.tasks[t := d.tasks[t].(stage := Finished)];
    forall u | Prompting(after, u) ensures false {
      assert Prompting(d, u);
    }
    CooledAfterDismissal(d.prompts, d.dismissals, now);
  }

  lemma CallKeepsPrompts(d: Daemon, e: Event, clock: int, now: int)
    requires PromptsOk(d, clock) && clock <= now && Enabled(d, e)
    requires e.EAccept? || e.EHello? || e.EStart?
    ensures PromptsOk(Step(d, e, now), now)
  {
    hide PromptsOk;
    QuietKeepsPrompts(d, Step(d, e, now), clock, now);
  }

  lemma CompleteKeepsPrompts(d: Daemon, c: nat, challengeId: nat, signature: Signature, clock: int, now: int)
    requires PromptsOk(d, clock) && clock <= now && c < |d.connections|
    ensures PromptsOk(AuthComplete(d, c, challengeId, signature, now).0, now)
  {
    hide PromptsOk;
    QuietKeepsPrompts(d, AuthComplete(d, c, challengeId, signature, now).0, clock, now);
  }

  lemma ReplyKeepsPrompts(d: Daemon, e: Event, clock: int, now: int)
    requires PromptsOk(d, clock) && clock <= now && Enabled(d, e)
    requires e.ELookup? || e.EPersist? || e.ERelease?
    ensures PromptsOk(Step(d, e, now), now)
  {
    hide PromptsOk;
    QuietKeepsPrompts(d, Step(d, e, now), clock, now);
  }

  lemma StepKeepsPrompts(d: Daemon, e: Event, clock: int, now: int)
    requires PromptsOk(d, clock) && clock <= now
    ensures PromptsOk(Step(d, e, now), now)
  {
    hide PromptsOk;
    if !Enabled(d, e) {
      QuietKeepsPrompts(d, d, clock, now);
    } else if e.EPair? {
      PairKeepsPrompts(d, e.c, e.identity, clock, now);
    } else if e.EApproval? {
      ApprovalKeepsPrompts(d, e.t, e.approved, clock, now);
    } else if e.EComplete? {
      CompleteKeepsPrompts(d, e.c, e.challengeId, e.signature, clock, now);
    } else if e.EAccept? || e.EHello? || e.EStart? {
      CallKeepsPrompts(d, e, clock, now);
    } else {
      ReplyKeepsPrompts(d, e, clock, now);
    }
  }

  /** The clock reading that state `i` of a run has reached. */
  function Clock(x: Execution, i: nat): int
    requires i <= |x.events|
  {
    if i > 0 then x.events[i - 1].now else if x.events == [] then 0 else x.events[0].now
  }

  lemma {:induction false} RunKeepsPrompts(x: Execution, i: nat)
    requires Behaves(x) && Timely(x.events) && i < |x.states|
    ensures PromptsOk(x.states[i], Clock(x, i))
  {
    if i > 0 {
      RunKeepsPrompts(x, i - 1);
      assert StepsTo(x, i - 1);
      hide Step, PromptsOk;
      StepKeepsPrompts(x.states[i - 1], x.events[i - 1].event, Clock(x, i - 1), x.events[i - 1].now);
    }
  }

  /**
   * Prompt admission over all connections: one approval outstanding at a time, a cooldown between a
   * dismissal and the next prompt, and at least the global window from any prompt to the third after it.
   */
  lemma PromptAdmission(x: Execution, i: nat)
    requires Behaves(x) && Timely(x.events) && i < |x.states|
    ensures var d := x.states[i]; OnePrompt(d) && Cooled(d.prompts, d.dismissals) && Spaced(d.prompts)
  {
    RunKeepsPrompts(x, i);
  }

  // ------------------------------------------------------ browser authority

  /** What lets a challenge be issued: a true lookup, or an approval when the key is to be paired. */
  predicate Authorises(entry: Entry, c: nat, identity: Identity, pairsKey: bool) {
    entry == if pairsKey then Approved(c, identity) else LookedUp(c, identity, true)
  }

  /** The challenge was issued on this connection after its identity was authorised there. */
  ghost predicate Grounded(log: seq<Entry>, c: nat, challenge: Challenge, pairsKey: bool) {
    exists i, j :: 0 <= i < j < |log| && Authorises(log[i], c, challenge.identity, pairsKey) && log[j] == Issued(c, challenge)
  }

  /** A valid signature over the challenge that arrived before it expired. */
  predicate IsProof(entry: Entry, c: nat, challenge: Challenge) {
    entry.Proved? && entry.connection == c && entry.challenge == challenge && VerifySignature(challenge, entry.signature, entry.at)
  }

  /** The challenge was grounded and then proved. */
  ghost predicate Proven(log: seq<Entry>, c: nat, challenge: Challenge, pairsKey: bool) {
    exists k :: 0 <= k < |log| && IsProof(log[k], c, challenge) && Grounded(log[..k], c, challenge, pairsKey)
  }

  /** The connection proved possession of an authorised key for this browser instance. */
  ghost predicate BrowserProven(log: seq<Entry>, c: nat, browserInstanceId: string) {
    exists challenge, pairsKey :: Proven(log, c, challenge, pairsKey) && challenge.identity.browserInstanceId == browserInstanceId
  }

  ghost predicate ConnectionOk(log: seq<Entry>, c: nat, connection: Connection) {
    && (connection.challenge.Some? ==> Grounded(log, c, connection.challenge.value, connection.pairsKey))
    && (connection.role.Browser? ==> BrowserProven(log, c, connection.role.browserInstanceId))
  }

  ghost predicate TaskOk(log: seq<Entry>, task: Task) {
    match task.stage
    case AwaitPersist(challenge) => Proven(log, task.connection, challenge, true)
    case AwaitRelease(challenge) => exists pairsKey :: Proven(log, task.connection, challenge, pairsKey)
    case _ => true
  }

  /** A key is stored as paired only after its own approval and its own proof on that connection. */
  ghost predicate StoredOk(log: seq<Entry>) {
    forall n | 0 <= n < |log| && log[n].Stored? :: KeyProven(log[..n], log[n].connection, log[n].identity)
  }

  ghost predicate KeyProven(log: seq<Entry>, c: nat, identity: Identity) {
    exists challenge: Challenge :: challenge.identity == identity && Proven(log, c, challenge, true)
  }

  ghost predicate Provenance(d: Daemon) {
    && (forall c | 0 <= c < |d.connections| :: ConnectionOk(d.log, c, d.connections[c]))
    && (forall t | 0 <= t < |d.tasks| :: TaskOk(d.log, d.tasks[t]))
    && StoredOk(d.log)
  }

  lemma GrownGrounded(log: seq<Entry>, more: seq<Entry>, c: nat, challenge: Challenge, pairsKey: bool)
    requires Grounded(log, c, challenge, pairsKey)
    ensures Grounded(log + more, c, challenge, pairsKey)
  {
    var i, j :| 0 <= i < j < |log| && Authorises(log[i], c, challenge.identity, pairsKey) && log[j] == Issued(c, challenge);
    assert Authorises((log + more)[i], c, challenge.identity, pairsKey) && (log + more)[j] == Issued(c, challenge);
  }

  lemma GrownProven(log: seq<Entry>, more: seq<Entry>, c: nat, challenge: Challenge, pairsKey: bool)
    requires Proven(log, c, challenge, pairsKey)
    ensures Proven(log + more, c, challenge, pairsKey)
  {
    var k :| 0 <= k < |log| && IsProof(log[k], c, challenge) && Grounded(log[..k], c, challenge, pairsKey);
    assert (log + more)[..k] == log[..k];
    assert IsProof((log + more)[k], c, challenge);
  }

  lemma GrownConnection(log: seq<Entry>, more: seq<Entry>, c: nat, connection: Connection)
    requires ConnectionOk(log, c, connection)
    ensures ConnectionOk(log + more, c, connection)
  {
    if connection.challenge.Some? {
      GrownGrounded(log, more, c, connection.challenge.value, connection.pairsKey);
    }
    if connection.role.Browser? {
      var challenge, pairsKey :| Proven(log, c, challenge, pairsKey) && challenge.identity.browserInstanceId == connection.role.browserInstanceId;
      GrownProven(log, more, c, challenge, pairsKey);
    }
  }

  lemma GrownTask(log: seq<Entry>, more: seq<Entry>, task: Task)
    requires TaskOk(log, task)
    ensures TaskOk(log + more, task)
  {
    match task.stage
    case AwaitPersist(challenge) => GrownProven(log, more, task.connection, challenge, true);
    case AwaitRelease(challenge) =>
      var pairsKey :| Proven(log, task.connection, challenge, pairsKey);
      GrownProven(log, more, task.connection, challenge, pairsKey);
    case _ =>
  }

  /** New history without a stored key keeps `StoredOk`. */
  lemma GrownStored(log: seq<Entry>, more: seq<Entry>)
    requires StoredOk(log)
    requires forall i | 0 <= i < |more| :: !more[i].Stored?
    ensures StoredOk(log + more)
  {
    var grown := log + more;
    forall n | 0 <= n < |grown| && grown[n].Stored?
      ensures KeyProven(grown[..n], grown[n].connection, grown[n].identity)
    {
      if n < |log| {
        assert grown[..n] == log[..n] && grown[n] == log[n];
      }
    }
  }

  /** A step that changes one connection, touches one task and records some entries keeps `Provenance`. */
  lemma FrameProvenance(d: Daemon, e: Daemon, c: nat, t: nat, more: seq<Entry>)
    requires Provenance(d)
    requires e.log == d.log + more && StoredOk(e.log)
    requires |e.connections| >= |d.connections| && |e.tasks| >= |d.tasks|
    requires forall k | 0 <= k < |d.connections| && k != c :: e.connections[k] == d.connections[k]
    requires forall u | 0 <= u < |d.tasks| && u != t :: e.tasks[u] == d.tasks[u]
    requires forall k | 0 <= k < |e.connections| && (k == c || k >= |d.connections|) :: ConnectionOk(e.log, k, e.connections[k])
    requires forall u | 0 <= u < |e.tasks| && (u == t || u >= |d.tasks|) :: TaskOk(e.log, e.tasks[u])
    ensures Provenance(e)
  {
    forall k | 0 <= k < |e.connections| ensures ConnectionOk(e.log, k, e.connections[k]) {
      if k < |d.connections| && k != c {
        GrownConnection(d.log, more, k, d.connections[k]);
      }
    }
    forall u | 0 <= u < |e.tasks| ensures TaskOk(e.log, e.tasks[u]) {
      if u < |d.tasks| && u != t {
        GrownTask(d.log, more, d.tasks[u]);
      }
    }
  }

  /** Issuing after authorisation grounds the new challenge. */
  lemma IssueKeepsProvenance(d: Daemon, e: Daemon, t: nat, c: nat, identity: Identity, pairsKey: bool, now: int)
    requires Provenance(d) && c < |d.connections| && t < |d.tasks|
    requires !d.connections[c].role.Browser?
    requires e.connections == d.connections && e.nextChallenge == d.nextChallenge
    requires e.tasks == d.tasks[t := d.tasks[t].(stage := Finished)]
    requires exists entry :: Authorises(entry, c, identity, pairsKey) && e.log == d.log + [entry]
    ensures Provenance(Issue(e, c, identity, pairsKey, now).0)
  {
    var entry :| Authorises(entry, c, identity, pairsKey) && e.log == d.log + [entry];
    var after := Issue(e, c, identity, pairsKey, now).0;
    var challenge := after.connections[c].challenge.value;
    var more := [entry, Issued(c, challenge)];
    assert after.log == d.log + more;
    assert Authorises(after.log[|d.log|], c, challenge.identity, pairsKey) && after.log[|d.log| + 1] == Issued(c, challenge);
    GrownStored(d.log, more);
    FrameProvenance(d, after, c, t, more);
  }

  lemma LookupKeepsProvenance(d: Daemon, t: nat, answer: LookupAnswer, now: int)
    requires Provenance(d) && AgentsOnly(d) && Resumable(d, t) && d.tasks[t].stage.AwaitLookup?
    ensures Provenance(LookupReply(d, t, answer, now).0)
  {
    var c, start := d.tasks[t].connection, d.tasks[t].stage.start;
    var after := LookupReply(d, t, answer, now).0;
    match answer
    case Paired =>
      var looked := Record(Resume(d, t, Finished), LookedUp(c, start, true));
      assert Authorises(LookedUp(c, start, true), c, start, false);
      IssueKeepsProvenance(d, looked, t, c, start, false, now);
    case Unpaired =>
      var more := [LookedUp(c, start, false)];
      GrownStored(d.log, more);
      GrownConnection(d.log, more, c, d.connections[c]);
      FrameProvenance(d, after, c, t, more);
    case Thrown =>
      assert after.log == d.log + [];
      FrameProvenance(d, after, c, t, []);
  }

  lemma ApprovalKeepsProvenance(d: Daemon, t: nat, approved: bool, now: int)
    requires Provenance(d) && AgentsOnly(d) && Resumable(d, t) && d.tasks[t].stage.AwaitApproval?
    ensures Provenance(ApprovalReply(d, t, approved, now).0)
  {
    var c, pairing := d.tasks[t].connection, d.tasks[t].stage.pairing;
    var after := ApprovalReply(d, t, approved, now).0;
    if approved {
      var resumed := Resume(d, t, Finished).(promptActive := false, lastPromptAt := Some(now), dismissals := d.dismissals + [now]);
      var looked := Record(resumed, Approved(c, pairing));
      assert Authorises(Approved(c, pairing), c, pairing, true);
      IssueKeepsProvenance(d, looked, t, c, pairing, true, now);
    } else {
      assert after.log == d.log + [];
      FrameProvenance(d, after, c, t, []);
    }
  }

  /** A connection with a suspended transition still belongs to an agent. */
  ghost predicate AgentsOnly(d: Daemon) {
    && (forall t | 0 <= t < |d.tasks| && d.tasks[t].stage != Finished ::
          d.tasks[t].connection < |d.connections| && d.connections[d.tasks[t].connection].role == Agent)
  }

  /** A valid answer turns the grounded challenge into a proven one. */
  lemma ProofProves(log: seq<Entry>, c: nat, challenge: Challenge, pairsKey: bool, signature: Signature, now: int)
    requires Grounded(log, c, challenge, pairsKey) && VerifySignature(challenge, signature, now)
    ensures Proven(log + [Consumed(c, challenge), Proved(c, challenge, signature, now)], c, challenge, pairsKey)
  {
    var whole := log + [Consumed(c, challenge), Proved(c, challenge, signature, now)];
    var k := |log| + 1;
    GrownGrounded(log, [Consumed(c, challenge)], c, challenge, pairsKey);
    assert whole[..k] == log + [Consumed(c, challenge)];
    assert IsProof(whole[k], c, challenge);
  }

  /** A connection that gives up its challenge, records entries and perhaps suspends a proven task. */
  lemma TakeKeepsProvenance(d: Daemon, e: Daemon, c: nat, connection: Connection, more: seq<Entry>, tasks: seq<Task>)
    requires Provenance(d) && c < |d.connections|
    requires e.connections == d.connections[c := connection] && e.log == d.log + more && e.tasks == d.tasks + tasks
    requires connection.challenge == None && connection.role == d.connections[c].role && !connection.role.Browser?
    requires forall i | 0 <= i < |more| :: !more[i].Stored?
    requires forall i | 0 <= i < |tasks| :: TaskOk(e.log, tasks[i])
    ensures Provenance(e)
  {
    GrownStored(d.log, more);
    forall u | |d.tasks| <= u < |e.tasks| ensures TaskOk(e.log, e.tasks[u]) {
      assert e.tasks[u] == tasks[u - |d.tasks|];
    }
    FrameProvenance(d, e, c, |e.tasks|, more);
  }

  lemma AnswerKeepsProvenance(d: Daemon, before: seq<Entry>, c: nat, challenge: Challenge, pairsKey: bool, signature: Signature, now: int)
    requires Provenance(d) && c < |d.connections|
    requires d.connections[c].challenge == None && !d.connections[c].role.Browser?
    requires Grounded(before, c, challenge, pairsKey) && d.log == before + [Consumed(c, challenge)]
    ensures Provenance(Answer(d, c, challenge, pairsKey, signature, now).0)
  {
    var after := Answer(d, c, challenge, pairsKey, signature, now).0;
    if VerifySignature(challenge, signature, now) {
      ProofProves(before, c, challenge, pairsKey, signature, now);
      assert after.log == before + [Consumed(c, challenge), Proved(c, challenge, signature, now)];
      TakeKeepsProvenance(d, after, c, d.connections[c], [Proved(c, challenge, signature, now)], [after.tasks[|d.tasks|]]);
    } else {
      QuietKeepsProvenance(d, after, c);
    }
  }

  lemma CompleteKeepsProvenance(d: Daemon, c: nat, challengeId: nat, signature: Signature, now: int)
    requires Provenance(d) && c < |d.connections|
    ensures Provenance(AuthComplete(d, c, challengeId, signature, now).0)
  {
    var cleared := ClearExpired(d.connections[c], now);
    if AgentRefusal(d.connections[c]) == None {
      if cleared.transitionActive || cleared.challenge == None || cleared.challenge.value.id != challengeId {
        QuietKeepsProvenance(d, Update(d, c, cleared), c);
      } else {
        var challenge, taken := cleared.challenge.value, Take(d, c, cleared);
        assert taken.tasks == d.tasks + [];
        TakeKeepsProvenance(d, taken, c, taken.connections[c], [Consumed(c, challenge)], []);
        AnswerKeepsProvenance(taken, d.log, c, challenge, cleared.pairsKey, signature, now);
      }
    }
  }

  lemma PersistKeepsProvenance(d: Daemon, t: nat, stored: bool)
    requires Provenance(d) && Resumable(d, t) && d.tasks[t].stage.AwaitPersist?
    ensures Provenance(PersistReply(d, t, stored).0)
  {
    var after := PersistReply(d, t, stored).0;
    var c, challenge := d.tasks[t].connection, d.tasks[t].stage.persisted;
    if stored {
      var more := [Stored(c, challenge.identity)];
      GrownProven(d.log, more, c, challenge, true);
      GrownConnection(d.log, more, c, d.connections[c]);
      assert after.log[..|d.log|] == d.log;
      forall n | 0 <= n < |after.log| && after.log[n].Stored?
        ensures KeyProven(after.log[..n], after.log[n].connection, after.log[n].identity)
      {
        if n < |d.log| {
          assert after.log[..n] == d.log[..n];
        }
      }
      FrameProvenance(d, after, c, t, more);
    } else {
      assert after.log == d.log + [];
      FrameProvenance(d, after, c, t, []);
    }
  }

  lemma ReleaseKeepsProvenance(d: Daemon, t: nat, released: bool)
    requires Provenance(d) && Resumable(d, t) && d.tasks[t].stage.AwaitRelease?
    ensures Provenance(ReleaseReply(d, t, released).0)
  {
    var after := ReleaseReply(d, t, released).0;
    var c, challenge := d.tasks[t].connection, d.tasks[t].stage.released;
    assert TaskOk(d.log, d.tasks[t]);
    assert after.log == d.log + [];
    assert BrowserProven(d.log, c, challenge.identity.browserInstanceId);
    FrameProvenance(d, after, c, t, []);
  }

  lemma QuietKeepsProvenance(d: Daemon, e: Daemon, c: nat)
    requires Provenance(d) && e.log == d.log && |e.tasks| >= |d.tasks| && |e.connections| >= |d.connections|
    requires forall k | 0 <= k < |d.connections| && k != c :: e.connections[k] == d.connections[k]
    requires e.tasks[..|d.tasks|] == d.tasks
    requires forall k | 0 <= k < |e.connections| && (k == c || k >= |d.connections|) :: ConnectionOk(e.log, k, e.connections[k])
    requires forall u | |d.tasks| <= u < |e.tasks| :: e.tasks[u].stage.AwaitLookup? || e.tasks[u].stage.AwaitApproval?
    ensures Provenance(e)
  {
    assert e.log == d.log + [];
    forall u | 0 <= u < |d.tasks| ensures e.tasks[u] == d.tasks[u] {
      assert e.tasks[u] == e.tasks[..|d.tasks|][u];
    }
    FrameProvenance(d, e, c, |e.tasks|, []);
  }

  lemma CallKeepsProvenance(d: Daemon, e: Event, now: int)
    requires Provenance(d) && Enabled(d, e)
    requires e.EAccept? || e.EHello? || e.EStart?
    ensures Provenance(Step(d, e, now))
  {
    QuietKeepsProvenance(d, Step(d, e, now), if e.EAccept? then |d.connections| else e.c);
  }

  lemma PairKeepsProvenance(d: Daemon, c: nat, pairing: Identity, now: int)
    requires Provenance(d) && c < |d.connections|
    ensures Provenance(AuthPair(d, c, pairing, now).0)
  {
    QuietKeepsProvenance(d, AuthPair(d, c, pairing, now).0, c);
  }

  lemma StepKeepsProvenance(d: Daemon, e: Event, now: int)
    requires Provenance(d) && AgentsOnly(d)
    ensures Provenance(Step(d, e, now))
  {
    if Enabled(d, e) {
      match e
      case ELookup(t, answer) => LookupKeepsProvenance(d, t, answer, now);
      case EPair(c, identity) => PairKeepsProvenance(d, c, identity, now);
      case EApproval(t, approved) => ApprovalKeepsProvenance(d, t, approved, now);
      case EComplete(c, id, signature) => CompleteKeepsProvenance(d, c, id, signature, now);
      case EPersist(t, ok) => PersistKeepsProvenance(d, t, ok);
      case ERelease(t, ok) => ReleaseKeepsProvenance(d, t, ok);
      case _ => CallKeepsProvenance(d, e, now);
    }
  }

  /** Agents stay agents, and every suspended transition is an old one or belongs to an agent. */
  lemma AgentsStay(d: Daemon, e: Daemon)
    requires AgentsOnly(d) && |e.connections| >= |d.connections|
    requires forall c | 0 <= c < |d.connections| && d.connections[c].role == Agent :: e.connections[c].role == Agent
    requires forall t | 0 <= t < |e.tasks| && e.tasks[t].stage != Finished ::
               || (t < |d.tasks| && d.tasks[t].stage != Finished && d.tasks[t].connection == e.tasks[t].connection)
               || (e.tasks[t].connection < |d.connections| && d.connections[e.tasks[t].connection].role == Agent)
    ensures AgentsOnly(e)
  {
  }

  lemma StepKeepsAgentsOnly(d: Daemon, e: Event, now: int)
    requires Exclusive(d) && AgentsOnly(d)
    ensures AgentsOnly(Step(d, e, now))
  {
    if Enabled(d, e) {
      match e
      case EStart(c, identity) => StartKeepsAgentsOnly(d, c, identity, now);
      case EPair(c, identity) => PairKeepsAgentsOnly(d, c, identity, now);
      case EComplete(c, id, signature) => CompleteKeepsAgentsOnly(d, c, id, signature, now);
      case ERelease(t, ok) => ReleaseKeepsAgentsOnly(d, t, ok);
      case EAccept => CallKeepsAgentsOnly(d, e, now);
      case EHello(_, _) => CallKeepsAgentsOnly(d, e, now);
      case _ => ReplyKeepsAgentsOnly(d, e, now);
    }
  }

  lemma CallKeepsAgentsOnly(d: Daemon, e: Event, now: int)
    requires AgentsOnly(d) && Enabled(d, e) && (e.EAccept? || e.EHello?)
    ensures AgentsOnly(Step(d, e, now))
  {
    AgentsStay(d, Step(d, e, now));
  }

  lemma ReplyKeepsAgentsOnly(d: Daemon, e: Event, now: int)
    requires AgentsOnly(d) && Enabled(d, e) && (e.ELookup? || e.EApproval? || e.EPersist?)
    ensures AgentsOnly(Step(d, e, now))
  {
    AgentsStay(d, Step(d, e, now));
  }

  lemma StartKeepsAgentsOnly(d: Daemon, c: nat, start: Identity, now: int)
    requires AgentsOnly(d) && c < |d.connections|
    ensures AgentsOnly(AuthStart(d, c, start, now).0)
  {
    AgentsStay(d, AuthStart(d, c, start, now).0);
  }

  lemma PairKeepsAgentsOnly(d: Daemon, c: nat, pairing: Identity, now: int)
    requires AgentsOnly(d) && c < |d.connections|
    ensures AgentsOnly(AuthPair(d, c, pairing, now).0)
  {
    AgentsStay(d, AuthPair(d, c, pairing, now).0);
  }

  lemma CompleteKeepsAgentsOnly(d: Daemon, c: nat, challengeId: nat, signature: Signature, now: int)
    requires AgentsOnly(d) && c < |d.connections|
    ensures AgentsOnly(AuthComplete(d, c, challengeId, signature, now).0)
  {
    AgentsStay(d, AuthComplete(d, c, challengeId, signature, now).0);
  }

  /** The one connection that stops being an agent has no other suspended transition. */
  lemma ReleaseKeepsAgentsOnly(d: Daemon, t: nat, released: bool)
    requires Exclusive(d) && AgentsOnly(d) && Resumable(d, t) && d.tasks[t].stage.AwaitRelease?
    ensures AgentsOnly(ReleaseReply(d, t, released).0)
  {
    var after := ReleaseReply(d, t, released).0;
    forall u | 0 <= u < |after.tasks| && after.tasks[u].stage != Finished
      ensures after.connections[after.tasks[u].connection].role == Agent
    {
      assert u != t && after.tasks[u] == d.tasks[u];
    }
  }

  lemma {:induction false} RunKeepsProvenance(x: Execution, i: nat)
    requires Behaves(x) && i < |x.states|
    ensures Provenance(x.states[i]) && AgentsOnly(x.states[i]) && Exclusive(x.states[i])
  {
    RunKeepsExclusive(x, i);
    if i > 0 {
      RunKeepsProvenance(x, i - 1);
      assert StepsTo(x, i - 1);
      hide Step, Provenance, AgentsOnly, Exclusive;
      StepKeepsProvenance(x.states[i - 1], x.events[i - 1].event, x.events[i - 1].now);
      StepKeepsAgentsOnly(x.states[i - 1], x.events[i - 1].event, x.events[i - 1].now);
    }
  }

  /**
   * Browser authority over whole runs. A connection with the browser role earlier had its identity
   * and key authorised on that same connection (a true lookup, or an approval), was then issued a
   * challenge for that identity, and then answered it with a valid signature before it expired. And
   * a key is stored as paired only on the strength of its own approval and proof.
   */
  lemma BrowserAuthority(x: Execution, i: nat, c: nat)
    requires Behaves(x) && i < |x.states|
    requires c < |x.states[i].connections| && x.states[i].connections[c].role.Browser?
    ensures BrowserProven(x.states[i].log, c, x.states[i].connections[c].role.browserInstanceId)
    ensures StoredOk(x.states[i].log)
  {
    RunKeepsProvenance(x, i);
    assert ConnectionOk(x.states[i].log, c, x.states[i].connections[c]);
  }

  // ---------------------------------------------- challenges are used once

  ghost predicate ConsumedIn(log: seq<Entry>, id: nat) {
    exists n :: 0 <= n < |log| && log[n].Consumed? && log[n].challenge.id == id
  }

  ghost predicate OnceEach(log: seq<Entry>) {
    forall m, n | 0 <= m < n < |log| && log[m].Consumed? && log[n].Consumed? :: log[m].challenge.id != log[n].challenge.id
  }

  ghost predicate Unspent(d: Daemon) {
    && OnceEach(d.log)
    && (forall n | 0 <= n < |d.log| && d.log[n].Consumed? :: d.log[n].challenge.id < d.nextChallenge)
    && (forall c | 0 <= c < |d.connections| && d.connections[c].challenge.Some? ::
          d.connections[c].challenge.value.id < d.nextChallenge && !ConsumedIn(d.log, d.connections[c].challenge.value.id))
    && (forall c, k | 0 <= c < k < |d.connections| && d.connections[c].challenge.Some? && d.connections[k].challenge.Some? ::
          d.connections[c].challenge.value.id != d.connections[k].challenge.value.id)
  }

  /** A step that adds no challenge and consumes none. */
  lemma QuietKeepsUnspent(d: Daemon, e: Daemon, more: seq<Entry>)
    requires Unspent(d) && e.log == d.log + more && e.nextChallenge == d.nextChallenge
    requires forall n | 0 <= n < |more| :: !more[n].Consumed?
    requires |e.connections| >= |d.connections|
    requires forall c | 0 <= c < |d.connections| :: e.connections[c].challenge == d.connections[c].challenge || e.connections[c].challenge == None
    requires forall c | |d.connections| <= c < |e.connections| :: e.connections[c].challenge == None
    ensures Unspent(e)
  {
    assert forall n | 0 <= n < |e.log| && e.log[n].Consumed? :: n < |d.log| && e.log[n] == d.log[n];
  }

  lemma IssueKeepsUnspent(d: Daemon, e: Daemon, more: seq<Entry>, c: nat, identity: Identity, pairsKey: bool, now: int)
    requires Unspent(d) && c < |d.connections|
    requires e.connections == d.connections && e.nextChallenge == d.nextChallenge && e.log == d.log + more
    requires forall n | 0 <= n < |more| :: !more[n].Consumed?
    ensures Unspent(Issue(e, c, identity, pairsKey, now).0)
  {
    var after := Issue(e, c, identity, pairsKey, now).0;
    QuietKeepsUnspent(d, e, more);
    assert forall n | 0 <= n < |after.log| && after.log[n].Consumed? :: n < |e.log| && after.log[n] == e.log[n];
  }

  lemma CompleteKeepsUnspent(d: Daemon, c: nat, challengeId: nat, signature: Signature, now: int)
    requires Unspent(d) && c < |d.connections|
    ensures Unspent(AuthComplete(d, c, challengeId, signature, now).0)
  {
    var after := AuthComplete(d, c, challengeId, signature, now).0;
    var cleared := ClearExpired(d.connections[c], now);
    if AgentRefusal(d.connections[c]).Some? {
    } else if cleared.transitionActive || cleared.challenge == None || cleared.challenge.value.id != challengeId {
      assert after.log == d.log + [];
      QuietKeepsUnspent(d, after, []);
    } else {
      var challenge := cleared.challenge.value;
      var taken := Record(Update(d, c, cleared.(challenge := None, pairsKey := false, transitionActive := true)), Consumed(c, challenge));
      ConsumeKeepsUnspent(d, taken, c, challenge);
      if VerifySignature(challenge, signature, now) {
        QuietKeepsUnspent(taken, after, [Proved(c, challenge, signature, now)]);
      } else {
        assert after.log == taken.log + [];
        QuietKeepsUnspent(taken, after, []);
      }
    }
  }

  lemma ConsumeKeepsUnspent(d: Daemon, e: Daemon, c: nat, challenge: Challenge)
    requires Unspent(d) && c < |d.connections| && d.connections[c].challenge == Some(challenge)
    requires e.log == d.log + [Consumed(c, challenge)] && e.nextChallenge == d.nextChallenge
    requires |e.connections| == |d.connections| && e.connections[c].challenge == None
    requires forall k | 0 <= k < |d.connections| && k != c :: e.connections[k] == d.connections[k]
    ensures Unspent(e)
  {
    forall n | 0 <= n < |d.log| && d.log[n].Consumed? ensures d.log[n].challenge.id != challenge.id {
      if d.log[n].challenge.id == challenge.id {
        assert ConsumedIn(d.log, challenge.id);
      }
    }
  }

  lemma CallKeepsUnspent(d: Daemon, e: Event, now: int)
    requires Unspent(d) && Enabled(d, e)
    requires e.EAccept? || e.EHello? || e.EStart? || e.ERelease?
    ensures Unspent(Step(d, e, now))
  {
    assert d.log == d.log + [];
    QuietKeepsUnspent(d, Step(d, e, now), []);
  }

  lemma PairKeepsUnspent(d: Daemon, c: nat, pairing: Identity, now: int)
    requires Unspent(d) && c < |d.connections|
    ensures Unspent(AuthPair(d, c, pairing, now).0)
  {
    assert d.log == d.log + [];
    QuietKeepsUnspent(d, AuthPair(d, c, pairing, now).0, []);
  }

  lemma StepKeepsUnspent(d: Daemon, e: Event, now: int)
    requires Unspent(d)
    ensures Unspent(Step(d, e, now))
  {
    if Enabled(d, e) {
      match e
      case ELookup(t, answer) => LookupKeepsUnspent(d, t, answer, now);
      case EPair(c, identity) => PairKeepsUnspent(d, c, identity, now);
      case EApproval(t, approved) => ApprovalKeepsUnspent(d, t, approved, now);
      case EComplete(c, id, signature) => CompleteKeepsUnspent(d, c, id, signature, now);
      case EPersist(t, ok) => PersistKeepsUnspent(d, t, ok);
      case _ => CallKeepsUnspent(d, e, now);
    }
  }

  lemma LookupKeepsUnspent(d: Daemon, t: nat, answer: LookupAnswer, now: int)
    requires Unspent(d) && Resumable(d, t) && d.tasks[t].stage.AwaitLookup?
    ensures Unspent(LookupReply(d, t, answer, now).0)
  {
    var c, start := d.tasks[t].connection, d.tasks[t].stage.start;
    match answer
    case Paired =>
      IssueKeepsUnspent(d, Record(Resume(d, t, Finished), LookedUp(c, start, true)), [LookedUp(c, start, true)], c, start, false, now);
    case Unpaired => QuietKeepsUnspent(d, LookupReply(d, t, answer, now).0, [LookedUp(c, start, false)]);
    case Thrown =>
      assert d.log == d.log + [];
      QuietKeepsUnspent(d, LookupReply(d, t, answer, now).0, []);
  }

  lemma ApprovalKeepsUnspent(d: Daemon, t: nat, approved: bool, now: int)
    requires Unspent(d) && Resumable(d, t) && d.tasks[t].stage.AwaitApproval?
    ensures Unspent(ApprovalReply(d, t, approved, now).0)
  {
    var c, pairing := d.tasks[t].connection, d.tasks[t].stage.pairing;
    if approved {
      var resumed := Resume(d, t, Finished).(promptActive := false, lastPromptAt := Some(now), dismissals := d.dismissals + [now]);
      IssueKeepsUnspent(d, Record(resumed, Approved(c, pairing)), [Approved(c, pairing)], c, pairing, true, now);
    } else {
      assert d.log == d.log + [];
      QuietKeepsUnspent(d, ApprovalReply(d, t, approved, now).0, []);
    }
  }

  lemma PersistKeepsUnspent(d: Daemon, t: nat, stored: bool)
    requires Unspent(d) && Resumable(d, t) && d.tasks[t].stage.AwaitPersist?
    ensures Unspent(PersistReply(d, t, stored).0)
  {
    var c, challenge := d.tasks[t].connection, d.tasks[t].stage.persisted;
    assert d.log == d.log + [];
    QuietKeepsUnspent(d, PersistReply(d, t, stored).0, if stored then [Stored(c, challenge.identity)] else []);
  }

  /** Every challenge is consumed at most once in any run, whoever answers it and however. */
  lemma {:induction false} ChallengeConsumedOnce(x: Execution, i: nat)
    requires Behaves(x) && i < |x.states|
    ensures Unspent(x.states[i]) && OnceEach(x.states[i].log)
  {
    if i > 0 {
      ChallengeConsumedOnce(x, i - 1);
      assert StepsTo(x, i - 1);
      hide Step;
      StepKeepsUnspent(x.states[i - 1], x.events[i - 1].event, x.events[i - 1].now);
    }
  }

  /** An idle agent whose key lookup succeeds is left holding a fresh challenge for its identity. */
  lemma LookupIssues(d: Daemon, c: nat, identity: Identity, now: int)
    requires c < |d.connections| && d.connections[c].role == Agent && MayReserve(d.connections[c])
    ensures var t := |d.tasks|;
            var issued := Step(Step(d, EStart(c, identity), now), ELookup(t, Paired), now);
            && |issued.connections| == |d.connections| && |issued.tasks| == |d.tasks| + 1
            && issued.connections[c] == Connection(
                 Agent, Some(Challenge(d.nextChallenge, identity, now + BROWSER_CHALLENGE_TTL_MS)), false, false, d.connections[c].attempts)
  {
  }

  /** A valid answer in time, followed by the release of the agent context, makes it a browser. */
  lemma AnswerConnects(d: Daemon, c: nat, challenge: Challenge, now: int)
    requires c < |d.connections| && d.connections[c].role == Agent && !d.connections[c].transitionActive
    requires d.connections[c].challenge == Some(challenge) && !d.connections[c].pairsKey && now < challenge.expiresAt
    ensures var t, signature := |d.tasks|, Signed(challenge.identity.publicKey, challenge.id, challenge.identity);
            var browser := Step(Step(d, EComplete(c, challenge.id, signature), now), ERelease(t, true), now);
            && |browser.connections| == |d.connections|
            && browser.connections[c].role == Browser(challenge.identity.browserInstanceId)
  {
  }

  /**
   * The authority theorem is not empty: from any state, the honest exchange of an idle agent whose
   * key is paired ends in the browser role, provided the answer arrives before the challenge expires.
   */
  lemma HonestBrowserConnects(d: Daemon, c: nat, identity: Identity, issued: int, answered: int)
    requires c < |d.connections| && d.connections[c].role == Agent && MayReserve(d.connections[c])
    requires issued <= answered < issued + BROWSER_CHALLENGE_TTL_MS
    ensures var t, signature := |d.tasks|, Signed(identity.publicKey, d.nextChallenge, identity);
            var challenged := Step(Step(d, EStart(c, identity), issued), ELookup(t, Paired), issued);
            var browser := Step(Step(challenged, EComplete(c, d.nextChallenge, signature), answered), ERelease(t + 1, true), answered);
            c < |browser.connections| && browser.connections[c].role == Browser(identity.browserInstanceId)
  {
    var challenged := Step(Step(d, EStart(c, identity), issued), ELookup(|d.tasks|, Paired), issued);
    LookupIssues(d, c, identity, issued);
    AnswerConnects(challenged, c, challenged.connections[c].challenge.value, answered);
  }
}
