/**
 * The browser pairing protocol of the broker daemon. A connection's handler closure suspends at
 * three kinds of `await` (pairing lookup, approval prompt, and the writes that follow a proof), so
 * each handler is cut into segments there, and a run interleaves segments of all connections.
 */
module Pairing {
  import opened Wrappers

  const PAIRING_PROMPT_COOLDOWN_MS: nat := 30_000
  const PAIRING_ATTEMPT_WINDOW_MS: nat := 300_000
  const PAIRING_ATTEMPTS_PER_CONNECTION: nat := 3
  const GLOBAL_PAIRING_ATTEMPT_WINDOW_MS: nat := 600_000
  const GLOBAL_PAIRING_ATTEMPTS: nat := 3
  const BROWSER_CHALLENGE_TTL_MS: nat := 30_000

  /** The extension, browser instance and public key a browser claims. */
  datatype Identity = Identity(extensionId: string, browserInstanceId: string, publicKey: string)

  /** `id` stands for the fresh challenge identifier together with the fresh random challenge. */
  datatype Challenge = Challenge(id: nat, identity: Identity, expiresAt: int)

  /** Signatures are symbolic: a key together with the signed challenge identifier and identity. */
  datatype Signature = Signed(key: string, challengeId: nat, identity: Identity)

  predicate VerifySignature(challenge: Challenge, signature: Signature, now: int) {
    challenge.expiresAt > now && signature == Signed(challenge.identity.publicKey, challenge.id, challenge.identity)
  }

  datatype Role = Unauthenticated | Agent | Browser(browserInstanceId: string)

  /** The variables of one connection's handler closure. */
  datatype Connection = Connection(
    role: Role, challenge: Option<Challenge>, pairsKey: bool, transitionActive: bool, attempts: seq<int>)

  /** Where a suspended handler waits. */
  datatype Stage =
    | AwaitLookup(start: Identity)
    | AwaitApproval(pairing: Identity)
    | AwaitPersist(persisted: Challenge)
    | AwaitRelease(released: Challenge)
    | Finished

  datatype Task = Task(connection: nat, stage: Stage)

  /** History of the run; it only grows and no handler reads it. */
  datatype Entry =
    | LookedUp(connection: nat, identity: Identity, paired: bool)
    | Approved(connection: nat, identity: Identity)
    | Issued(connection: nat, challenge: Challenge)
    | Consumed(connection: nat, challenge: Challenge)
    | Proved(connection: nat, challenge: Challenge, signature: Signature, at: int)
    | Stored(connection: nat, identity: Identity)

  datatype Daemon = Daemon(
    connections: seq<Connection>,
    tasks: seq<Task>,
    promptActive: bool,
    lastPromptAt: Option<int>,
    globalAttempts: seq<int>,
    nextChallenge: nat,
    log: seq<Entry>,
    prompts: seq<int>,
    dismissals: seq<int>)

  datatype Code =
    | AlreadyAuthenticated | AuthenticationFailed | AuthenticationRequired | AuthenticationBusy
    | PairingRateLimit | PairingBusy | PairingCooldown | PairingGlobalRateLimit | PairingDenied
    | ProofRejected | LookupFailed | PersistFailed | ReleaseFailed

  datatype Reply =
    | Refused(code: Code) | Suspended(task: nat) | NotPaired | ChallengeSent(challenge: Challenge)
    | AgentReady | BrowserReady

  datatype LookupAnswer = Paired | Unpaired | Thrown

  // ---------------------------------------------------------------- segments

  function FreshConnection(): Connection {
    Connection(Unauthenticated, None, false, false, [])
  }

  function Start(): Daemon {
    Daemon([], [], false, None, [], 0, [], [], [])
  }

  function ClearExpired(connection: Connection, now: int): Connection {
    if connection.challenge.Some? && connection.challenge.value.expiresAt <= now
    then connection.(challenge := None, pairsKey := false)
    else connection
  }

  /** `reserveBrowserAuthTransition`: refused while a transition or a live challenge exists. */
  predicate MayReserve(connection: Connection) {
    !connection.transitionActive && connection.challenge == None
  }

  function Update(d: Daemon, c: nat, connection: Connection): Daemon
    requires c < |d.connections|
  {
    d.(connections := d.connections[c := connection])
  }

  function Suspend(d: Daemon, c: nat, stage: Stage): Daemon {
    d.(tasks := d.tasks + [Task(c, stage)])
  }

  /** Drops the attempts at the front that left the window. */
  function DropOld(attempts: seq<int>, now: int, width: nat): (kept: seq<int>) {
    if attempts != [] && attempts[0] <= now - width then DropOld(attempts[1..], now, width) else attempts
  }

  /** The refusal of a caller that is not an authenticated agent. */
  function AgentRefusal(connection: Connection): Option<Code> {
    match connection.role
    case Unauthenticated => Some(AuthenticationRequired)
    case Agent => None
    case Browser(_) => Some(AlreadyAuthenticated)
  }

  function Accept(d: Daemon): Daemon {
    d.(connections := d.connections + [FreshConnection()])
  }

  function Hello(d: Daemon, c: nat, verified: bool): (Daemon, Reply)
    requires c < |d.connections|
  {
    if d.connections[c].role != Unauthenticated then (d, Refused(AlreadyAuthenticated))
    else if !verified then (d, Refused(AuthenticationFailed))
    else (Update(d, c, d.connections[c].(role := Agent)), AgentReady)
  }

  function AuthStart(d: Daemon, c: nat, start: Identity, now: int): (Daemon, Reply)
    requires c < |d.connections|
  {
    var refusal := AgentRefusal(d.connections[c]);
    if refusal.Some? then (d, Refused(refusal.value))
    else
      var cleared := ClearExpired(d.connections[c], now);
      if !MayReserve(cleared) then (Update(d, c, cleared), Refused(AuthenticationBusy))
      else
        var reserved := Update(d, c, cleared.(transitionActive := true));
        (Suspend(reserved, c, AwaitLookup(start)), Suspended(|d.tasks|))
  }

  /** Stores a fresh challenge and ends the transition. */
  function Issue(d: Daemon, c: nat, identity: Identity, pairsKey: bool, now: int): (Daemon, Reply)
    requires c < |d.connections|
  {
    var challenge := Challenge(d.nextChallenge, identity, now + BROWSER_CHALLENGE_TTL_MS);
    var connection := d.connections[c].(challenge := Some(challenge), pairsKey := pairsKey, transitionActive := false);
    (Update(d, c, connection).(nextChallenge := d.nextChallenge + 1, log := d.log + [Issued(c, challenge)]), ChallengeSent(challenge))
  }

  function EndTransition(d: Daemon, c: nat): Daemon
    requires c < |d.connections|
  {
    Update(d, c, d.connections[c].(transitionActive := false))
  }

  function Record(d: Daemon, entry: Entry): Daemon {
    d.(log := d.log + [entry])
  }

  function Resume(d: Daemon, t: nat, stage: Stage): Daemon
    requires t < |d.tasks|
  {
    d.(tasks := d.tasks[t := d.tasks[t].(stage := stage)])
  }

  predicate Resumable(d: Daemon, t: nat) {
    t < |d.tasks| && d.tasks[t].connection < |d.connections|
  }

  function LookupReply(d: Daemon, t: nat, answer: LookupAnswer, now: int): (Daemon, Reply)
    requires Resumable(d, t) && d.tasks[t].stage.AwaitLookup?
  {
    var c, start := d.tasks[t].connection, d.tasks[t].stage.start;
    var resumed := Resume(d, t, Finished);
    match answer
    case Thrown => (EndTransition(resumed, c), Refused(LookupFailed))
    case Unpaired => (EndTransition(Record(resumed, LookedUp(c, start, false)), c), NotPaired)
    case Paired => Issue(Record(resumed, LookedUp(c, start, true)), c, start, false, now)
  }

  /** The checks of `browser.auth.pair` after the per-connection attempt was counted. */
  function PromptRefusal(d: Daemon, now: int): Option<Code> {
    if d.promptActive then Some(PairingBusy)
    else if d.lastPromptAt.Some? && now - d.lastPromptAt.value < PAIRING_PROMPT_COOLDOWN_MS then Some(PairingCooldown)
    else None
  }

  /** The attempt lists after one `browser.auth.pair` call, and why it is refused, if it is. */
  datatype Admission = Admission(attempts: seq<int>, globalAttempts: seq<int>, refusal: Option<Code>)

  /**
   * The limits in the order the handler applies them: the connection's own attempts, then the prompt
   * that may be showing, then the cooldown, then the attempts of all connections.
   */
  function AdmitPrompt(d: Daemon, attempts: seq<int>, now: int): Admission {
    var kept := DropOld(attempts, now, PAIRING_ATTEMPT_WINDOW_MS);
    if |kept| >= PAIRING_ATTEMPTS_PER_CONNECTION then Admission(kept, d.globalAttempts, Some(PairingRateLimit))
    else if PromptRefusal(d, now).Some? then Admission(kept + [now], d.globalAttempts, PromptRefusal(d, now))
    else
      var global := DropOld(d.globalAttempts, now, GLOBAL_PAIRING_ATTEMPT_WINDOW_MS);
      if |global| >= GLOBAL_PAIRING_ATTEMPTS then Admission(kept + [now], global, Some(PairingGlobalRateLimit))
      else Admission(kept + [now], global + [now], None)
  }

  function AuthPair(d: Daemon, c: nat, pairing: Identity, now: int): (Daemon, Reply)
    requires c < |d.connections|
  {
    var refusal := AgentRefusal(d.connections[c]);
    if refusal.Some? then (d, Refused(refusal.value))
    else
      var cleared := ClearExpired(d.connections[c], now);
      if !MayReserve(cleared) then (Update(d, c, cleared), Refused(AuthenticationBusy))
      else
        var admission := AdmitPrompt(d, cleared.attempts, now);
        var counted := cleared.(attempts := admission.attempts);
        if admission.refusal.Some? then
          (Update(d, c, counted).(globalAttempts := admission.globalAttempts), Refused(admission.refusal.value))
        else
          (ShowPrompt(Update(d, c, counted.(transitionActive := true)), c, pairing, admission.globalAttempts, now), Suspended(|d.tasks|))
  }

  function ShowPrompt(d: Daemon, c: nat, pairing: Identity, globalAttempts: seq<int>, now: int): Daemon {
    Suspend(d.(globalAttempts := globalAttempts, promptActive := true, prompts := d.prompts + [now]), c, AwaitApproval(pairing))
  }

  function ApprovalReply(d: Daemon, t: nat, approved: bool, now: int): (Daemon, Reply)
    requires Resumable(d, t) && d.tasks[t].stage.AwaitApproval?
  {
    var c, pairing := d.tasks[t].connection, d.tasks[t].stage.pairing;
    var resumed := Resume(d, t, Finished).(promptActive := false, lastPromptAt := Some(now), dismissals := d.dismissals + [now]);
    if !approved then (EndTransition(resumed, c), Refused(PairingDenied))
    else Issue(Record(resumed, Approved(c, pairing)), c, pairing, true, now)
  }

  function AuthComplete(d: Daemon, c: nat, challengeId: nat, signature: Signature, now: int): (Daemon, Reply)
    requires c < |d.connections|
  {
    var refusal := AgentRefusal(d.connections[c]);
    if refusal.Some? then (d, Refused(refusal.value))
    else
      var cleared := ClearExpired(d.connections[c], now);
      if cleared.transitionActive || cleared.challenge == None || cleared.challenge.value.id != challengeId then
        (Update(d, c, cleared), Refused(ProofRejected))
      else
        Answer(Take(d, c, cleared), c, cleared.challenge.value, cleared.pairsKey, signature, now)
  }

  /** The challenge leaves the connection before its answer is looked at, and a transition begins. */
  function Take(d: Daemon, c: nat, cleared: Connection): Daemon
    requires c < |d.connections| && cleared.challenge.Some?
  {
    var taken := cleared.(challenge := None, pairsKey := false, transitionActive := true);
    Record(Update(d, c, taken), Consumed(c, cleared.challenge.value))
  }

  function Answer(d: Daemon, c: nat, challenge: Challenge, pairsKey: bool, signature: Signature, now: int): (Daemon, Reply)
    requires c < |d.connections|
  {
    if !VerifySignature(challenge, signature, now) then (EndTransition(d, c), Refused(ProofRejected))
    else
      var proved := Record(d, Proved(c, challenge, signature, now));
      (Suspend(proved, c, if pairsKey then AwaitPersist(challenge) else AwaitRelease(challenge)), Suspended(|d.tasks|))
  }

  function PersistReply(d: Daemon, t: nat, stored: bool): (Daemon, Reply)
    requires Resumable(d, t) && d.tasks[t].stage.AwaitPersist?
  {
    var c := d.tasks[t].connection;
    if !stored then (EndTransition(Resume(d, t, Finished), c), Refused(PersistFailed))
    else
      var challenge := d.tasks[t].stage.persisted;
      (Record(Resume(d, t, AwaitRelease(challenge)), Stored(c, challenge.identity)), Suspended(t))
  }

  /** The old agent context is released; the connection becomes a browser. */
  function ReleaseReply(d: Daemon, t: nat, released: bool): (Daemon, Reply)
    requires Resumable(d, t) && d.tasks[t].stage.AwaitRelease?
  {
    var c, challenge := d.tasks[t].connection, d.tasks[t].stage.released;
    var resumed := EndTransition(Resume(d, t, Finished), c);
    if !released then (resumed, Refused(ReleaseFailed))
    else (Update(resumed, c, resumed.connections[c].(role := Browser(challenge.identity.browserInstanceId))), BrowserReady)
  }

  // -------------------------------------------------------------------- runs

  datatype Event =
    | EAccept
    | EHello(c: nat, verified: bool)
    | EStart(c: nat, identity: Identity)
    | ELookup(t: nat, answer: LookupAnswer)
    | EPair(c: nat, identity: Identity)
    | EApproval(t: nat, approved: bool)
    | EComplete(c: nat, challengeId: nat, signature: Signature)
    | EPersist(t: nat, ok: bool)
    | ERelease(t: nat, ok: bool)

  predicate Enabled(d: Daemon, e: Event) {
    match e
    case EAccept => true
    case EHello(c, _) => c < |d.connections|
    case EStart(c, _) => c < |d.connections|
    case ELookup(t, _) => Resumable(d, t) && d.tasks[t].stage.AwaitLookup?
    case EPair(c, _) => c < |d.connections|
    case EApproval(t, _) => Resumable(d, t) && d.tasks[t].stage.AwaitApproval?
    case EComplete(c, _, _) => c < |d.connections|
    case EPersist(t, _) => Resumable(d, t) && d.tasks[t].stage.AwaitPersist?
    case ERelease(t, _) => Resumable(d, t) && d.tasks[t].stage.AwaitRelease?
  }

  /** One segment. An event that is not enabled (no such connection, not that await) does nothing. */
  function Step(d: Daemon, e: Event, now: int): Daemon {
    if !Enabled(d, e) then d
    else
      match e
      case EAccept => Accept(d)
      case EHello(c, verified) => Hello(d, c, verified).0
      case EStart(c, identity) => AuthStart(d, c, identity, now).0
      case ELookup(t, answer) => LookupReply(d, t, answer, now).0
      case EPair(c, identity) => AuthPair(d, c, identity, now).0
      case EApproval(t, approved) => ApprovalReply(d, t, approved, now).0
      case EComplete(c, id, signature) => AuthComplete(d, c, id, signature, now).0
      case EPersist(t, ok) => PersistReply(d, t, ok).0
      case ERelease(t, ok) => ReleaseReply(d, t, ok).0
  }

  datatype Timed = Timed(now: int, event: Event)

  /**
   * A run: any interleaving of segments of any number of connections. `states[i]` is the daemon before
   * event `i`, so the last state is the one after all events.
   */
  datatype Execution = Execution(states: seq<Daemon>, events: seq<Timed>)

  ghost predicate StepsTo(x: Execution, i: nat)
    requires i < |x.events| && |x.states| == |x.events| + 1
  {
    x.states[i + 1] == Step(x.states[i], x.events[i].event, x.events[i].now)
  }

  ghost predicate Behaves(x: Execution) {
    && |x.states| == |x.events| + 1 && x.states[0] == Start()
    && forall i: nat | i < |x.events| :: StepsTo(x, i)
  }

  /** The clock never goes back along a run. */
  ghost predicate Timely(events: seq<Timed>) {
    forall i, j | 0 <= i <= j < |events| :: events[i].now <= events[j].now
  }
}
