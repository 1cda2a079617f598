# TabGrant verification model

TabGrant's broker hands an agent short-lived, budgeted leases on one browser document. This project is a
Dafny 4.11 model of its stateful core and a proof of what that core promises. `dafny verify dfyconfig.toml`
checks all of it.

| part | files | source |
|---|---|---|
| Lease and request state machine | `broker.dfy` (specification), `broker_invariants.dfy`, `broker_ledger.dfy`, `broker_windows.dfy`, `broker_bounds.dfy`, `broker_steps.dfy`, `broker_runs.dfy`, `broker_expiry.dfy`, `broker_properties.dfy`, `broker_sessions.dfy`, `broker_rates.dfy`, `broker_reached.dfy` (runs that reach the limits), `broker_laws.dfy`, `broker_commands.dfy`, `broker_outcomes.dfy` (each event spelled out), `broker_state.dfy` (the class) | `apps/broker/src/broker-state.ts` |
| Policy engine | `policy.dfy` | `packages/policy/src/engine.ts` |
| Crash-safe audit log | `audit.dfy` (specification), `audit_chain.dfy`, `audit_recovery.dfy`, `audit_steps.dfy`, `audit_runs.dfy`, `audit_bounds.dfy`, `audit_retention.dfy`, `audit_logger.dfy` (the class) | `apps/broker/src/audit.ts` |
| Race-safe file removal | `file_removal.dfy` (protocol), `removal_actions.dfy`, `file_remover.dfy` (the code) | `apps/broker/src/installer.ts` |
| Launcher codec and shell quoting | `launcher.dfy`, `shell.dfy` | `apps/broker/src/installer.ts` |
| Browser pairing | `pairing.dfy` (protocol), `pairing_proofs.dfy`, `pairing_laws.dfy`, `daemon.dfy` (the class) | `apps/broker/src/daemon.ts` |
| Stream framing | `native_framing.dfy`, `wire.dfy`, `bytes.dfy` | `apps/broker/src/native-framing.ts`, `apps/broker/src/wire.ts` |
| Rate windows, shared types | `fixed_window.dfy`, `wrappers.dfy` | several |

How the model is built:

- A handler that awaits is cut into atomic segments at its awaits. A run is any sequence of segments of any
  number of connections, each with one clock reading; the clock is positive and never goes back. A command
  suspends twice, for the browser reply and for the audit write, and its place in between is a `Stage`.
- Objects that the source updates in place are classes whose methods run loop by loop and are proved equal to
  a specification on values; the properties are then proved of all runs of that specification. Records that a
  suspended handler may still hold live in a heap sequence indexed by their fresh identifier, and a `Map` is
  the insertion-ordered list of the identifiers it still contains.
- Hashes, message authentication codes, digests and signatures are free constructors: injective, and not
  forgeable. JSON, base64url and zod schemas are abstract codecs and predicates.
- The audit directory is a map from segment index to file contents plus a manifest that is replaced
  atomically. A crash stops the process between any two disk operations, or inside an append.
- The removal protocol runs against another process that may relink, rewrite or create files between any two
  calls, with inode numbers reused once a file has no name left, and against a system that may refuse any call.

What the proofs settle about the code:

- What each event does in any run is also stated without the names of the functions that compute it, in record
  fields, constants and earlier events (`BrokerLaws`, `BrokerCommands`, `BrokerOutcomes`, `PairingLaws`,
  `AuditRetention`, `RemovalActions`). So a lease is traced back to its request and the grant of a registered
  browser (`BrokerLaws.LeaseFromGrant`), a returned result to its call, its reply and what it paid
  (`BrokerCommands.ReturnedWasPaid`), a role to a verified hello (`PairingLaws.AuthorityOverEvents`), and a removed
  file to the two reads and the move that justified it (`RemovalActions.RemovedOverActions`).
- The 30-per-minute command counter of a lease and the 20-per-minute and 120-per-minute request counters are
  fixed windows. In the minute of one of their own windows they keep to the limit
  (`BrokerRates.CommandWindowHolds`, `BrokerRates.RequestWindowHolds`); in an arbitrary minute they let through
  twice the limit and no more, and runs of the broker reach 60, 40 and 240 (`BrokerReached`). The
  240-per-minute counter of `RpcPeer` opens a window only on a request it then admits, so its exact maximum is
  479 (`Wire.InboundRateBound`, `Wire.InboundRateReached`).
- `ensureAccessRequestCapacity` never throws: 512 records cannot all be pending when only 100 may be. It drops
  a request if and only if the map is full and that request is the first in the order of end time and creation
  among those no longer pending, where a grant counts as an end (`BrokerBounds.EvictedExactly`). So it can drop
  a granted request whose lease is active; a run of five minutes does so (`BrokerReached.GrantedRequestEvicted`).
  It keeps every granted request exactly when the map has room or the first in that order is not granted
  (`BrokerBounds.GrantedKeptExactly`). Retention never drops one (`BrokerExpiry.RetentionKeepsGranted`).
- A grant makes room for its lease before its claims are checked. So in a full map a grant that is refused because a
  name does not fit the capability schema has still dropped the lease that was revoked first
  (`BrokerLaws.LeaseDroppedExactly`).
- A result is released when its lease is found active after the browser replied. A lease revoked during the
  following audit write does not hold the result back, so the release is stated at that check.
- A browser disconnect revokes the leases of the instance that the connection registered last. An instance it
  registered earlier keeps its leases and its entry among the browsers.
- The native decoder tolerates chunks of up to the 1 MiB limit plus 5 bytes. A longer chunk after one that
  lacks only the last byte of a largest frame makes it refuse a stream of valid frames
  (`NativeFraming.LargerChunkIsRefused`).
- In the audit log a crash inside or right after an append is always rejected at the next start, so a crash
  there calls for manual recovery; no record outside a manifest is ever accepted.

## Model

| member | source | states |
|---|---|---|
| BrokerProperties.LeaseLedger | apps/broker/src/broker-state.ts:632-695 | After every run, for every lease: uses left plus commands admitted is 250; the in-flight counter is the number of suspended commands and at most 2; egress left plus bytes awaiting their audit plus bytes of returned snapshots is the initial budget |
| BrokerCommands.CommandExactly | apps/broker/src/broker-state.ts:600-724 | In every run a command is admitted exactly when it is a valid call of the agent on its own unrevoked lease that grants its scopes and, for a navigation, its origin, with the browser connected and uses, concurrency and window leaving room; only then is the lease charged, a missing browser ends it, and any other refusal at most rolls an over window |
| BrokerCommands.ReplyExactly | apps/broker/src/broker-state.ts:654-757 | In every run a browser answer goes on to its success audit exactly when the lease still serves and the answer can be paid for: a snapshot costs its bytes, at most 256 000 and at most the egress left, any other result nothing; the lease pays exactly that |
| BrokerCommands.ReturnedWasPaid | apps/broker/src/broker-state.ts:632-757 | Every returned result of every run comes from one call, one browser answer on a lease that still served, and one written success audit, in this order; a snapshot is on record with exactly the bytes of its answer, paid within both limits, any other call with none |
| BrokerCommands.SuccessExactly | apps/broker/src/broker-state.ts:673-694 | A command returns exactly when its success audit was written, and leaves the in-flight count, ending an exhausted lease; otherwise its bytes are refunded and it goes to the denial audit |
| BrokerCommands.DenialExactly | apps/broker/src/broker-state.ts:683-694 | After its denial audit a command has failed and leaves the in-flight count |
| BrokerCommands.CommandsMove | apps/broker/src/broker-state.ts:632-694 | Only its own answer and audits move a command, and only a call creates one, on the call's lease and of its kind |
| BrokerCommands.CommandBegins | apps/broker/src/broker-state.ts:600-653 | Every command of every run comes from a call on its lease of its kind |
| BrokerProperties.ReturnedWhileActive | apps/broker/src/broker-state.ts:664-681 | A result that was returned passed its lease check before the lease expired and not after the lease was revoked |
| BrokerProperties.LayersAgree | apps/broker/src/broker-state.ts:988-1023 | In every reachable state, for a command whose scopes are granted, the policy engine allows it if and only if the broker's own active check holds, uses remain, and a navigation stays on the leased origin; a highlight is not put to the engine |
| BrokerProperties.GrantHoldsExactly | packages/policy/src/engine.ts:176-235 | For a lease in step with its policy lease and capability, all conditions of the engine's grant validation come down to the broker's active check and a remaining use, both ways |
| BrokerProperties.ScopeInCapability | packages/policy/src/engine.ts:293-300 | For a command whose scopes are on the lease record, the engine finds its scope in the signed capability if and only if a navigation stays on the leased origin |
| BrokerProperties.OneLeasePerRequest | apps/broker/src/broker-state.ts:534-547 | Two leases of one request are the same lease, and the request points back at it |
| BrokerLaws.GrantExactly | apps/broker/src/broker-state.ts:446-547 | In every run a grant succeeds exactly when it comes from the registered instance, for a pending recorded request, of requested scopes only, for a tab on the granted origin, with valid parameters and names, and there is room; the lease then starts as asked, and otherwise no lease or request changes |
| BrokerLaws.LeaseFromGrant | apps/broker/src/broker-state.ts:446-541 | Every lease of every run was created by one grant of a browser registered as its instance, for a tab on its origin, before its request ran out and for the lifetime asked for; its scopes are among those requested, its client and task the request's |
| BrokerLaws.ClaimsFit | apps/broker/src/capability.ts:28-53 | For valid parameters the issuer accepts the claims exactly when all names fit the identifier schema and egress has a provider |
| BrokerLaws.VerifiesExactlyIssued | apps/broker/src/capability.ts:28-66 | A capability verifies exactly when the issuer issues it for its claims |
| BrokerLaws.RequestExactly | apps/broker/src/broker-state.ts:325-363 | In every run a request is created exactly when it comes from an agent, is valid, fits both rate windows, and fewer than 8 of the session and 100 of all are pending; the windows are charged exactly when both have room, and no other record changes |
| BrokerOutcomes.RevokeExactly | apps/broker/src/broker-state.ts:578-588 | In every run a browser ends a lease exactly when it is recorded and of the instance it registered, an agent exactly when it is its own; the lease and its recorded request then end now for that reason, and in every other case no record changes |
| BrokerOutcomes.DenyExactly | apps/broker/src/broker-state.ts:558-569 | In every run a denial ends exactly a recorded pending request, as denied, and changes nothing else |
| BrokerOutcomes.EndedAdmitsNothing | apps/broker/src/broker-state.ts:664-669 | Once a lease has ended, no command of it is ever admitted again |
| BrokerOutcomes.AgentDisconnectExactly | apps/broker/src/broker-state.ts:235-244 | An agent's disconnect ends exactly its pending requests and its unrevoked leases with their requests, each now |
| BrokerOutcomes.ConnectionsExactly | apps/broker/src/broker-state.ts:424-434 | What each event does to contexts, registered instances and browsers; all other events leave them alone |
| BrokerOutcomes.GrantReportExactly | apps/broker/src/broker-state.ts:548-556 | Reporting a grant ends its lease if it has run out meanwhile, and changes nothing else |
| BrokerOutcomes.ReadsChangeNothing | apps/broker/src/broker-state.ts:436-444 | Registrations, status calls and other calls change no record that maintenance leaves |
| BrokerOutcomes.TabsExactly | apps/broker/src/broker-state.ts:404-422 | The tabs an agent is shown are exactly its session's recorded leases that still serve |
| BrokerOutcomes.StatusExactly | apps/broker/src/broker-state.ts:377-387 | An agent is shown exactly its session's recorded requests and leases |
| BrokerOutcomes.RequestReplies | apps/broker/src/broker-state.ts:325-363 | Each reply to an access request is true: the new request, or a limit that was reached |
| BrokerOutcomes.GrantReplies | apps/broker/src/broker-state.ts:446-475 | Each reply to a grant is true: the new lease, or a condition that failed |
| BrokerOutcomes.CommandReplies | apps/broker/src/broker-state.ts:600-724 | Each reply to a command call is true: the new command, or a condition that failed |
| BrokerProperties.GrantedMeansLive | apps/broker/src/broker-state.ts:534-547 | A recorded request is granted if and only if a recorded, unrevoked lease belongs to it; that lease is of the same session |
| BrokerProperties.StatusMovesForward | apps/broker/src/broker-state.ts:917-947 | Between any two points of a run a status only moves forward, and a denied, expired or revoked request never changes again |
| BrokerProperties.LeasesOnlyWindDown | apps/broker/src/broker-state.ts:917-935 | A revoked lease stays revoked at the same time for the same reason; uses never come back |
| BrokerProperties.MemoryBounded | apps/broker/src/broker-state.ts:843-874 | After every run at most 512 request records, 200 lease records, 100 pending requests, and 8 pending per session |
| BrokerProperties.PendingListComplete | apps/broker/src/broker-state.ts:436-444 | The list shown to a browser contains exactly the pending requests: its cut at 100 drops nothing |
| BrokerProperties.RecordCapacityNeverExhausted | apps/broker/src/broker-state.ts:843-859 | In no reachable state does an access request fail for want of a record |
| BrokerProperties.CommandRate | apps/broker/src/broker-state.ts:697-724 | At most 60 commands of a lease are admitted in any half-open minute, wherever it starts |
| BrokerProperties.RequestRate | apps/broker/src/broker-state.ts:805-841 | At most 40 access requests of a session and 240 of all sessions are created in any half-open minute |
| BrokerReached.CommandRateReached | apps/broker/src/broker-state.ts:697-724 | A run in which 60 commands of one lease are admitted within one minute |
| BrokerReached.SessionRateReached | apps/broker/src/broker-state.ts:805-841 | A run in which 40 requests of one session are created within one minute |
| BrokerReached.GlobalRateReached | apps/broker/src/broker-state.ts:805-841 | A run in which 240 requests of all sessions are created within one minute |
| BrokerRates.CommandWindowHolds | apps/broker/src/broker-state.ts:697-724 | In every run, the minute that starts where a window of a lease started holds at most 30 admitted commands, however the run goes on |
| BrokerRates.RequestWindowHolds | apps/broker/src/broker-state.ts:805-841 | In every run, the minute that starts where a request window started holds at most 20 created requests of that session, or 120 of all |
| BrokerRates.StepLogs | apps/broker/src/broker-state.ts:697-841 | One segment admits at most one command and creates at most one request, both now, and replaces a request window only when it is over |
| BrokerExpiry.ExpirePointwise | apps/broker/src/broker-state.ts:937-947 | Expiry treats each lease and each request on its own: the order of the loops does not matter, and a request ends with exactly the one lease it points at |
| BrokerLaws.LeasesExpireExactly | apps/broker/src/broker-state.ts:898-947 | In every run maintenance ends an unrevoked lease exactly when its lifetime or two minutes without use are over |
| BrokerLaws.RequestsExpireExactly | apps/broker/src/broker-state.ts:917-947 | In every run maintenance ends a pending request after five minutes, a granted one together with its lease, and no other |
| BrokerLaws.ForgottenExactly | apps/broker/src/broker-state.ts:876-896 | Every thirty seconds maintenance forgets exactly what ended at least fifteen minutes before |
| BrokerExpiry.RetentionForgetsOldEnds | apps/broker/src/broker-state.ts:876-896 | Whatever maintenance forgets had ended at least fifteen minutes before, and was denied, expired or revoked already before this call |
| BrokerExpiry.RetentionKeepsGranted | apps/broker/src/broker-state.ts:876-896 | In every reachable state maintenance keeps every pending and every granted request |
| BrokerSessions.ViewsAreIsolated | apps/broker/src/broker-state.ts:377-387 | Two states that agree on a session's records give its agent the same status at any time, whatever else they hold |
| BrokerSessions.RunsShowTheSame | apps/broker/src/broker-state.ts:377-422 | In any two runs, agents of sessions with equal records are shown equal status and equal tab lists |
| Broker.EventsLead | apps/broker/src/broker-state.ts:204-218 | Every timely sequence of events has a run, so nothing proved of runs is empty |
| BrokerSessions.AgentStepIsolated | apps/broker/src/broker-state.ts:247-290 | A segment run for one agent changes no lease and no request of another session beyond what expiry makes of it, adds records of its own session only, and leaves every pending request and every unrevoked lease of others recorded |
| BrokerSessions.DroppedExactly | apps/broker/src/broker-state.ts:843-896 | In every run, a request that maintenance leaves recorded is dropped by a step, whoever takes it, if and only if the step creates a request while the map is full and the dropped one ended first, granted or not |
| BrokerSessions.DisconnectedStaysEmpty | apps/broker/src/broker-state.ts:220-245 | After an agent disconnected, and as long as it makes no new request, no later state holds a pending request or an unrevoked lease of its session |
| BrokerSessions.BrowserDisconnectExact | apps/broker/src/broker-state.ts:220-234 | A browser disconnect revokes exactly the unrevoked leases of the instance registered last on that connection, and no other lease changes |
| BrokerSessions.RunKeepsRoles | apps/broker/src/broker-state.ts:424-434 | Roles never change along a run and only browser connections carry an instance |
| BrokerSessions.StepKeepsGone | apps/broker/src/broker-state.ts:325-375 | An emptied session stays empty through any segment except a request of its own |
| BrokerRuns.RunKeepsInv | apps/broker/src/broker-state.ts:183-1023 | The whole invariant (records, coupling, policy state, ledger, rate windows, bounds) holds after every interleaving of segments |
| BrokerRuns.StepReaches | apps/broker/src/broker-state.ts:204-218 | One segment of any handler keeps the whole invariant and moves every record forward only |
| BrokerRuns.RunMoves | apps/broker/src/broker-state.ts:917-947 | Between any two points of a run no record is replaced and no end is undone |
| BrokerRuns.ReplyReaches | apps/broker/src/broker-state.ts:654-672 | A browser reply, whether error, timeout or result, keeps the invariant: only a result found active and within the budgets goes on |
| BrokerRuns.FinishReaches | apps/broker/src/broker-state.ts:689-694 | Ending a command, by return or failure, keeps the invariant, also when it ends an exhausted lease |
| BrokerRuns.RefundReaches | apps/broker/src/broker-state.ts:683-688 | A failed success audit refunds exactly the reserved bytes |
| BrokerSteps.RequestReaches | apps/broker/src/broker-state.ts:325-375 | An access request keeps the invariant in every outcome, refusals included |
| BrokerSteps.GrantReaches | apps/broker/src/broker-state.ts:446-556 | A grant keeps the invariant in every outcome, refusals included |
| BrokerSteps.GrantedInStep | apps/broker/src/broker-state.ts:484-541 | A new lease, its policy lease and its signed capability describe the same grant, and its times are in order |
| BrokerSteps.MaintainReaches | apps/broker/src/broker-state.ts:876-896 | Maintenance keeps the invariant |
| BrokerSteps.DisconnectReaches | apps/broker/src/broker-state.ts:220-245 | A disconnect keeps the invariant |
| BrokerSteps.BeginReaches | apps/broker/src/broker-state.ts:600-695 | Starting a command keeps the invariant in every outcome |
| BrokerSteps.RevokeReaches | apps/broker/src/broker-state.ts:917-935 | A revocation keeps the invariant and moves records forward only |
| BrokerInvariants.RevokeKeepsRecords | apps/broker/src/broker-state.ts:917-935 | Revoking a lease keeps lease and request coupled, and the policy state in step |
| BrokerInvariants.AddLeaseKeepsRecords | apps/broker/src/broker-state.ts:534-547 | Granting a pending request keeps every lease and request coupled |
| BrokerInvariants.ForgetKeepsRecords | apps/broker/src/broker-state.ts:843-895 | Forgetting ended records keeps the coupling |
| BrokerLedger.AdmitKeepsLedger | apps/broker/src/broker-state.ts:719-723 | Admitting a command moves one use to the admitted side and one command in flight |
| BrokerLedger.MoveKeepsLedger | apps/broker/src/broker-state.ts:654-694 | A command may change stage only while its lease's counters move by the same amounts; then every balance holds |
| BrokerLedger.TallyReplace | apps/broker/src/broker-state.ts:654-694 | Changing one command shifts each sum over the commands by the difference of its weights |
| BrokerWindows.AdmitKeepsLeaseWindows | apps/broker/src/broker-state.ts:705-723 | The start and count of a lease window keep accounting for the whole history of its admitted commands |
| BrokerWindows.ReserveKeepsRequestWindows | apps/broker/src/broker-state.ts:805-841 | Both request windows keep accounting for the history, also when the request is then refused |
| BrokerWindows.CreateKeepsRequestWindows | apps/broker/src/broker-state.ts:349-363 | The reserved charge is the one the created request uses |
| BrokerBounds.CountsAreTrue | apps/broker/src/broker-state.ts:329-336 | The counting loop counts exactly the pending requests, of the session and of all |
| BrokerBounds.RequestRoomNeverFails | apps/broker/src/broker-state.ts:843-859 | A full request map always holds an ended request; making room removes just one, the one that ended first, never a pending one |
| BrokerBounds.EvictedExactly | apps/broker/src/broker-state.ts:843-859 | Making room drops a recorded request if and only if the map is full and that request ended first: least end time, then least identifier, a grant counting as an end |
| BrokerBounds.GrantedKeptExactly | apps/broker/src/broker-state.ts:843-859 | Making room keeps every granted request if and only if the map has room or a request that is not granted ended first |
| BrokerBounds.SortFirst | apps/broker/src/broker-state.ts:845-850 | The stable sort puts the entry with the least time, then the least identifier, first |
| BrokerReached.GrantedRequestEvicted | apps/broker/src/broker-state.ts:843-859 | A run that ends with an active, recorded lease whose granted request was evicted |
| BrokerLaws.LeaseDroppedExactly | apps/broker/src/broker-state.ts:458-497 | In every run, a lease that maintenance leaves recorded is dropped by a step if and only if the step is a rightly asked grant, the map is full and the dropped lease was revoked first, even when that grant then fails |
| BrokerBounds.LeaseEvictedExactly | apps/broker/src/broker-state.ts:861-874 | Making room drops a recorded lease if and only if the map is full and that lease was revoked first: least time, then least identifier |
| BrokerBounds.LeaseRoomExactly | apps/broker/src/broker-state.ts:861-874 | A grant finds room if and only if the lease map is not full of unrevoked leases; it removes at most one, the one revoked first |
| BrokerBounds.SortSorts | apps/broker/src/broker-state.ts:845-850 | The eviction order is sorted by the time the records ended |
| BrokerStateModel.BrokerState.constructor | apps/broker/src/broker-state.ts:183-196 | A new broker is the start state |
| BrokerStateModel.BrokerState.RevokeLease | apps/broker/src/broker-state.ts:917-935 | Ends the lease once, its policy lease, and its request if still recorded |
| BrokerStateModel.BrokerState.IsLeaseActive | apps/broker/src/broker-state.ts:898-915 | Answers the active check and revokes what it finds expired or exhausted |
| BrokerStateModel.BrokerState.ExpireRecords | apps/broker/src/broker-state.ts:937-947 | Both loops compute the expiry of the specification |
| BrokerStateModel.BrokerState.MaintainState | apps/broker/src/broker-state.ts:876-896 | Expiry, then retention when it is due |
| BrokerStateModel.BrokerState.ReserveAccessRequestRate | apps/broker/src/broker-state.ts:805-830 | Rolls both windows over and charges both or neither |
| BrokerStateModel.BrokerState.CountPending | apps/broker/src/broker-state.ts:329-336 | Counts the pending requests of the session and of all in one pass |
| BrokerStateModel.BrokerState.EnsureAccessRequestCapacity | apps/broker/src/broker-state.ts:843-859 | Deletes ended requests in order until there is room |
| BrokerStateModel.BrokerState.EnsureLeaseCapacity | apps/broker/src/broker-state.ts:861-874 | Deletes revoked leases in order until there is room |
| BrokerStateModel.BrokerState.RequestAccess | apps/broker/src/broker-state.ts:325-363 | The whole segment up to its audit write, with each refusal |
| BrokerStateModel.BrokerState.AccessStatus | apps/broker/src/broker-state.ts:377-387 | Shows exactly the session's own records after expiry |
| BrokerStateModel.BrokerState.ListPendingRequests | apps/broker/src/broker-state.ts:436-444 | Lists the pending requests after expiry |
| BrokerStateModel.BrokerState.GrantAccess | apps/broker/src/broker-state.ts:446-547 | The whole segment up to its audit write, with each refusal |
| BrokerStateModel.BrokerState.Disconnected | apps/broker/src/broker-state.ts:220-245 | The three loops end what the connection leaves behind |
| BrokerStateModel.BrokerState.Execute | apps/broker/src/broker-state.ts:600-630 | The checks of a command in the order of the handlers |
| BrokerStateModel.BrokerState.ExecuteWithLease | apps/broker/src/broker-state.ts:632-653 | Browser, policy and reservation, up to the request to the browser |
| BrokerStateModel.BrokerState.ReserveCommand | apps/broker/src/broker-state.ts:697-724 | Concurrency, rate, uses, then the five counter updates |
| BrokerStateModel.BrokerState.AfterReply | apps/broker/src/broker-state.ts:654-672 | The segment between the browser reply and the audit write |
| BrokerStateModel.BrokerState.AfterSuccessAudit | apps/broker/src/broker-state.ts:673-694 | Return, or refund and denial audit |
| BrokerStateModel.BrokerState.HandleCall | apps/broker/src/broker-state.ts:204-218 | Maintenance, then the handler: exactly one step of the machine |
| BrokerStateModel.BrokerState.Continue | apps/broker/src/broker-state.ts:220-694 | A segment after an await: exactly one step of the machine |
| Policy.LowRiskAllowed | packages/policy/src/engine.ts:361-446 | For actions without approval those conditions are also sufficient |
| Policy.OutcomeExactly | packages/policy/src/engine.ts:361-446 | For every question: an ordinary action in order is allowed in the prepare phase only; a high-risk one is prepared first and committed exactly when it is not manual and its approval did not fail; anything out of order is denied |
| Policy.CoveredExactly | packages/policy/src/engine.ts:293-325 | The scope an action needs is present exactly when some granted scope covers it, scope by scope |
| Policy.DenialTrue | packages/policy/src/engine.ts:176-446 | Each denial names the forbidden access attempted, the approval's own failure, or a condition that failed |
| Policy.GrantErrors | packages/policy/src/engine.ts:176-235 | Each refusal of a grant is true of it, and is given only when nothing more basic is wrong |
| Policy.BoundTogether | packages/policy/src/engine.ts:155-174 | A grant holds exactly when capability, lease and caller name the same client, task, browser, tab, document and origin, and the same audience, policy version and capability |
| Policy.ClaimsFieldwise | packages/protocol/src/access.ts:15-48 | Which lifetime, idle timeout, use limit or name a well-formed capability may carry instead, both ways |
| Policy.ClaimsListwise | packages/protocol/src/access.ts:15-53 | Which scope, data class or destination may be added to a well-formed capability, both ways |
| Policy.LeaseFieldwise | packages/protocol/src/access.ts:80-111 | Which times, uses, names or revocation time a well-formed lease may carry instead, both ways |
| Policy.RiskReported | packages/policy/src/engine.ts:420-446 | The risk a decision reports, for every kind of action |
| AuditRuns.CrashRecovery | apps/broker/src/audit.ts:129-244 | Whichever disk operation a process stopped at, in any run from an empty directory or one that loads: the directory as of the last manifest is itself empty or loads; if it is what was left behind, the next start accepts it (or runs out of generations while it removes expired segments), and if not, the next start fails and writes nothing |
| AuditRetention.NothingOverdue | apps/broker/src/audit.ts:455-472 | After every successful start or call of every run, every segment in the fields and in the manifest began less than 2 592 000 000 ms before |
| AuditRetention.ExpiryExactly | apps/broker/src/audit.ts:455-472 | Expiry unlinks the file of every segment that began that long ago or longer and forgets it; a younger one keeps its file and description |
| AuditRecovery.LoadedFieldsAre | apps/broker/src/audit.ts:150-172 | A start that fails in the loading loop leaves exactly the segments before the failing one adopted |
| AuditRecovery.ManifestErrors | apps/broker/src/audit.ts:135-149 | Each error about the manifest or the names in the directory is true |
| AuditRecovery.SegmentErrors | apps/broker/src/audit.ts:151-166 | Each error about a segment is true of its file |
| AuditRuns.RecordRefusals | apps/broker/src/audit.ts:178-200 | Each refusal of a record is true, and refusals before the first disk operation touch nothing |
| AuditBounds.DirectoryBounded | apps/broker/src/audit.ts:111-244 | After every disk operation of every run, half-finished calls included, the directory holds allowed segment files only, each within the segment limit and all within the total |
| AuditBounds.RecordFits | apps/broker/src/audit.ts:178-244 | Each disk operation of one call keeps the directory within its limits |
| AuditRuns.LoadedAsNamed | apps/broker/src/audit.ts:148-172 | What a directory loads is the generation and the segments its manifest names |
| AuditRuns.RestartIsIdentity | apps/broker/src/audit.ts:129-176 | After any run whose last call succeeded, a fresh start at the same time changes nothing on disk and rebuilds every field |
| AuditRuns.RecordSucceeds | apps/broker/src/audit.ts:178-244 | A record succeeds whenever its line fits a segment and the generation has room for three more: no integrity error can be reached, the append after a rotation always fits, and the record is then the last line of the active file |
| AuditRuns.AppendFailsClosed | apps/broker/src/audit.ts:200-220 | A crash during the append, or between it and its manifest, is always rejected |
| AuditRuns.TotalBytesBounded | apps/broker/src/audit.ts:111-127 | After every call of a logger in use, the segments its fields describe hold no more bytes than the configured total |
| AuditRuns.LifeKeeps | apps/broker/src/audit.ts:129-244 | After any calls, failed ones included, a logger in use agrees with its directory, and every crash point so far recovers |
| AuditRuns.RecordKeeps | apps/broker/src/audit.ts:178-244 | One record call leaves agreement and a final manifest write, or a poisoned logger |
| AuditRuns.Compose | apps/broker/src/audit.ts:178-244 | Two phases that each recover from every crash point recover as one |
| AuditRuns.InitializeOk | apps/broker/src/audit.ts:129-176 | Starting on an empty directory or on one that loads leaves agreement, with every crash point recoverable |
| AuditRecovery.LoadExactly | apps/broker/src/audit.ts:148-172 | A directory with the manifest of consistent fields loads if and only if its files are the ones described, byte for byte; then it rebuilds those fields |
| AuditRecovery.LoadGivesInSync | apps/broker/src/audit.ts:129-172 | Whatever loads is consistent: files, fields and manifest agree |
| AuditRecovery.LoadSegmentsExactly | apps/broker/src/audit.ts:151-172 | The loading loop accepts exactly the files every expected segment describes, within the total |
| AuditRecovery.TotalStaysWithin | apps/broker/src/audit.ts:163-166 | Consistent segments never exceed the configured total |
| AuditSteps.ExpireKeeps | apps/broker/src/audit.ts:455-472 | Expiry removes exactly the expired segments and persists once, or does nothing |
| AuditSteps.RotateKeeps | apps/broker/src/audit.ts:407-453 | Rotation is an exact shift: each retained segment moves up one index with its content and description, only the last index is dropped |
| AuditSteps.RotateShifts | apps/broker/src/audit.ts:415-446 | The unlink and the renames move each file one up and drop the last |
| AuditSteps.AppendKeeps | apps/broker/src/audit.ts:200-237 | The append grows the active file by exactly the serialised line within the segment limit, and the description follows |
| AuditSteps.NewSegmentSound | apps/broker/src/audit.ts:222-236 | The description kept in memory is the one a restart computes from the file |
| AuditChain.AcceptsExactlyProduced | apps/broker/src/audit.ts:246-279 | The record loop accepts a file if and only if its records are what repeated serialisation from the expected hash produces |
| AuditChain.ChainUnique | apps/broker/src/audit.ts:246-279 | Two accepted segments with equal record count and equal last hash hold the same records |
| AuditChain.VerifySnoc | apps/broker/src/audit.ts:257-277 | What the loop makes of one more line, error by error |
| Audit.MaxSegments | apps/broker/src/audit.ts:120-127 | The segment count is 2 to 4 and that many full segments fit the total |
| AuditLoggerModel.AuditLogger.VerifySegment | apps/broker/src/audit.ts:246-279 | The verification loop, with each error |
| AuditLoggerModel.AuditLogger.LoadAndVerifySegment | apps/broker/src/audit.ts:299-317 | The size limit before the verification |
| AuditLoggerModel.AuditLogger.DiscoverSegmentIndices | apps/broker/src/audit.ts:385-405 | Whatever the order of the names: the error for an unexpected one, else the indices in ascending order |
| AuditLoggerModel.AuditLogger.ValidateManifestLayout | apps/broker/src/audit.ts:354-383 | Order, set and entries, in the order the errors are raised |
| AuditLoggerModel.AuditLogger.PersistManifest | apps/broker/src/audit.ts:482-499 | Counts the generation up and writes the sorted segments, or reports exhaustion |
| AuditLoggerModel.AuditLogger.PersistChange | apps/broker/src/audit.ts:447-452 | Persists after a change; a failure poisons the logger |
| AuditLoggerModel.AuditLogger.UnlinkExpired | apps/broker/src/audit.ts:458-466 | The removal loop, highest index first, with its disk operations in order |
| AuditLoggerModel.AuditLogger.RemoveExpiredSegments | apps/broker/src/audit.ts:455-472 | Expiry and its manifest |
| AuditLoggerModel.AuditLogger.RenameSegments | apps/broker/src/audit.ts:415-446 | The renaming loop is the shift, with its disk operations in order; its error branches cannot be reached |
| AuditLoggerModel.AuditLogger.RotateCurrentSegment | apps/broker/src/audit.ts:407-453 | Rotation and its manifest |
| AuditLoggerModel.AuditLogger.WriteLine | apps/broker/src/audit.ts:200-220 | Open and append; the size checks cannot fire |
| AuditLoggerModel.AuditLogger.AppendLine | apps/broker/src/audit.ts:200-243 | Append and its manifest |
| AuditLoggerModel.AuditLogger.EnterRecord | apps/broker/src/audit.ts:189-243 | Rotate if the line does not fit, then append |
| AuditLoggerModel.AuditLogger.Record | apps/broker/src/audit.ts:178-244 | The whole call: new fields, disk operations in order, outcome; a logger in use stays in agreement with its disk |
| AuditLoggerModel.AuditLogger.AdoptSegments | apps/broker/src/audit.ts:150-172 | The loading loop, with each error and the fields it leaves |
| AuditLoggerModel.AuditLogger.Initialize | apps/broker/src/audit.ts:129-176 | The whole start: the fields it leaves, also when it fails, the disk operations, and why it failed |
| FileRemoval.RemovedIsInspected | apps/broker/src/installer.ts:458-549 | For every interleaving with another process, `removed` is returned only if the file renamed aside is the inspected file, its re-read bytes are the inspected bytes, and the caller accepted them |
| RemovalActions.RemovedOverActions | apps/broker/src/installer.ts:458-549 | For every interleaving, a true answer rests on these calls in order: a read of a regular file through the private link, accepted by the caller; a rename of that same file from the target name; a second read of it with the same bytes; and the drop of its name |
| RemovalActions.DropsJustified | apps/broker/src/installer.ts:508-549 | In every run the moved name of a file is dropped only after that file was given the target name back, or after those checks |
| RemovalActions.CallsChangeNamesOnly | apps/broker/src/installer.ts:458-549 | No call of the protocol changes a file, nor any name except by pinning, moving aside, linking back, and dropping its two private names |
| RemovalActions.ThrowsExactly | apps/broker/src/installer.ts:524-549 | A run throws exactly when some call of it was refused by the system, found the file too large, its contents not accepted, or the target name taken when linking back |
| RemovalActions.RestoresAlone | apps/broker/src/installer.ts:607-620 | Left alone, a file moved aside that is not to be removed gets its name back and both private names go |
| RemovalActions.OthersAlone | apps/broker/src/installer.ts:471-487 | Left alone, a missing file is reported missing, and anything but a regular file is left as it was |
| FileRemoval.NothingElseLost | apps/broker/src/installer.ts:524-549 | However a run ends, a file that was moved aside was given the target name back by a call after the move, and still has it unless the other process relinked or removed that name since, or is still under the moved name, or is the inspected one with the inspected and accepted bytes; no other is deleted |
| FileRemoval.RestoredIsTaken | apps/broker/src/installer.ts:607-620 | A file that counts as restored was linked back by a call after the move, and has the target name at every later point up to which the other process left that name alone |
| FileRemoval.GivenBackStays | apps/broker/src/installer.ts:607-620 | From the call that links back on, the file keeps the target name while the other process leaves it alone, through every further call of the protocol |
| FileRemoval.NothingLeftBehind | apps/broker/src/installer.ts:526-548 | Unless the call throws, neither private name is left behind |
| FileRemoval.RemovedOnlyIfUnchanged | apps/broker/src/installer.ts:437-456 | A true answer means that a file with exactly the expected bytes was removed |
| FileRemoval.LeftAloneRemoves | apps/broker/src/installer.ts:471-514 | Undisturbed, the protocol removes an accepted regular file and leaves nothing else changed |
| FileRemoval.LeftAloneRefuses | apps/broker/src/installer.ts:497-549 | Undisturbed, a file whose contents are not accepted is left exactly as it was |
| FileRemoval.RunKeepsSafe | apps/broker/src/installer.ts:458-549 | What each call relies on holds in every run, so no call meets a missing private name |
| FileRemoval.MeddleKeepsSafe | apps/broker/src/installer.ts:432-436 | The pin keeps the inode number standing for the inspected file, even though freed numbers are reused |
| FileRemoverModel.FileRemover.RemoveFileIfMatching | apps/broker/src/installer.ts:458-549 | The function is a run of the protocol that ends with its outcome; what `Removed` promises; no private name left unless it throws |
| FileRemoverModel.FileRemover.InspectPinned | apps/broker/src/installer.ts:477-497 | Inspection of the pinned file |
| FileRemoverModel.FileRemover.ReadContents | apps/broker/src/installer.ts:488-497 | The read and the comparison with the pinned metadata |
| FileRemoverModel.FileRemover.TakeAside | apps/broker/src/installer.ts:499-522 | The rename and the decision |
| FileRemoverModel.FileRemover.CompareMoved | apps/broker/src/installer.ts:502-506 | Whether the moved file is the inspected inode |
| FileRemoverModel.FileRemover.RereadMoved | apps/broker/src/installer.ts:508-517 | The second read decides between removal and restoring |
| FileRemoverModel.FileRemover.RestoreMovedFile | apps/broker/src/installer.ts:607-620 | Link back unless the name is taken, then drop the moved name |
| FileRemoverModel.FileRemover.CleanUp | apps/broker/src/installer.ts:526-548 | The `finally` block and what is thrown or returned after it |
| Launcher.ParseIsInverse | apps/broker/src/installer.ts:264-284 | A text parses to a launcher if and only if the launcher is valid, the text is its rendering, and it is within the size limit |
| Launcher.ParsedText | apps/broker/src/installer.ts:264-323 | The texts that parse, character by character: shebang, marker with the encoded paths, one exec line with both quoted paths and all arguments, nothing after it, absolute one-line paths, at most 16 384 bytes of UTF-8 |
| Launcher.PublishedExactly | apps/broker/src/installer.ts:246-262 | What is published is the rendering; anything else is refused, for the paths or else for the size |
| Launcher.MetadataCharacters | apps/broker/src/installer.ts:270-273 | Accepted metadata consists of the characters of base64url, of at least one |
| Launcher.ExecLineFields | apps/broker/src/installer.ts:315-327 | Read by the quoting and splitting rules of the POSIX.1-2017 shell command language, sections 2.2 and 2.6.5, the exec line has exactly the word exec, the two paths and all arguments, for all quote patterns |
| Launcher.AcceptedLauncherRuns | apps/broker/src/installer.ts:264-284 | Any text the parser accepts runs exactly the two paths it reports |
| Launcher.LauncherContents | apps/broker/src/installer.ts:246-262 | What the installer publishes always parses back to what it was given |
| Launcher.SplitJoined | apps/broker/src/installer.ts:267-268 | Splitting joined lines gives the lines back |
| Shell.QuotedReadsBack | apps/broker/src/installer.ts:325-327 | A quoted word adds exactly its value to the field being read |
| Shell.EscapeReadsAsQuote | apps/broker/src/installer.ts:326-326 | The five-character escape reads as one literal quote and stays inside the quotes |
| Shell.ReplacedReadsBack | apps/broker/src/installer.ts:325-327 | The replaced body reads back as the value, whatever quotes it holds |
| PairingProofs.BrowserAuthority | apps/broker/src/daemon.ts:193-310 | A connection is in the browser role only if a challenge issued on it followed a true lookup or an approval of that identity and key, and was answered by a valid signature before it expired; every stored key was approved and proven on its connection |
| PairingLaws.AuthorityOverEvents | apps/broker/src/daemon.ts:154-310 | In terms of events alone: the browser role for an instance needs, in this order, a verified first hello, a paired lookup or an approved pairing of its identity on that connection, an answer with the key's signature over that challenge within thirty seconds, the store of a key to be paired, and the release of the agent context |
| PairingLaws.StoreOverEvents | apps/broker/src/daemon.ts:261-298 | A key goes to the store only after its own approved pairing and its own proof on one authenticated connection |
| PairingLaws.RoleBegins | apps/broker/src/daemon.ts:166-179 | In every run any role of a connection begins with a verified hello that reached it unauthenticated |
| PairingLaws.HelloExactly | apps/broker/src/daemon.ts:166-179 | A hello makes an agent of its connection exactly when it is verified and the first; any other changes nothing |
| PairingLaws.StartExactly | apps/broker/src/daemon.ts:193-198 | A lookup starts exactly on an agent connection with no transition and no live challenge |
| PairingLaws.LookupExactly | apps/broker/src/daemon.ts:198-207 | A lookup leads to a challenge, fresh and good for thirty seconds, exactly when the key is paired |
| PairingLaws.PairExactly | apps/broker/src/daemon.ts:208-231 | A prompt is shown exactly on an idle agent connection when its own attempts of five minutes, the prompt showing, the cooldown and all prompts of ten minutes leave room |
| PairingLaws.ApprovalExactly | apps/broker/src/daemon.ts:232-260 | A prompt ends either way, and leads to a challenge that pairs the key exactly when it was approved |
| PairingLaws.CompleteExactly | apps/broker/src/daemon.ts:261-289 | An answer that meets the live challenge uses it up, and goes on exactly when the signature is the key's over that challenge and identity |
| PairingLaws.PersistExactly | apps/broker/src/daemon.ts:287-298 | A key to be paired goes on to the release exactly when it was stored |
| PairingLaws.ReleaseExactly | apps/broker/src/daemon.ts:298-310 | The connection becomes a browser for its challenge's instance exactly when the agent context was released |
| PairingLaws.PromptsApart | apps/broker/src/daemon.ts:208-241 | Between two prompts of any connections a prompt was dismissed at least thirty seconds before the second |
| PairingLaws.PromptsSpaced | apps/broker/src/daemon.ts:369-384 | From any prompt to the third after it at least ten minutes pass |
| PairingLaws.AnsweredOnce | apps/broker/src/daemon.ts:261-285 | A challenge that was answered is never met by another answer, from any connection |
| PairingLaws.PairReplies | apps/broker/src/daemon.ts:208-231 | Each reply to a pairing request is true of the connection and the limits it met |
| PairingLaws.CompleteReplies | apps/broker/src/daemon.ts:261-289 | Each reply to an answer is true of the challenge and the signature |
| PairingProofs.ChallengeConsumedOnce | apps/broker/src/daemon.ts:261-285 | In every run each challenge is consumed at most once |
| PairingProofs.RunKeepsExclusive | apps/broker/src/daemon.ts:154-163 | At every await no connection has both a transition and a live challenge, and at most one handler of it is suspended |
| PairingProofs.PromptAdmission | apps/broker/src/daemon.ts:208-260 | At most one approval is outstanding over all connections, each prompt starts at least 30 000 ms after the previous dismissal, and the third prompt after any other at least 600 000 ms after it |
| PairingProofs.RunKeepsPrompts | apps/broker/src/daemon.ts:355-384 | The prompt flag, the dismissal time and the attempt list keep accounting for all prompts |
| PairingProofs.StepKeepsProvenance | apps/broker/src/daemon.ts:193-310 | Every segment keeps the history behind live challenges, suspended handlers, stored keys and browser roles |
| PairingProofs.HonestBrowserConnects | apps/broker/src/daemon.ts:193-310 | A paired browser that answers in time does reach the browser role |
| PairingProofs.AnswerConnects | apps/broker/src/daemon.ts:276-307 | A valid answer to a live challenge leads to the browser role once the writes succeed |
| BrokerDaemonModel.BrokerDaemon.SessionHello | apps/broker/src/daemon.ts:166-179 | The first authentication, and its refusals |
| BrokerDaemonModel.BrokerDaemon.ReserveBrowserAuthTransition | apps/broker/src/daemon.ts:154-163 | Expires the challenge, then takes the transition or refuses |
| BrokerDaemonModel.BrokerDaemon.BrowserAuthStart | apps/broker/src/daemon.ts:193-198 | The segment up to the pairing lookup |
| BrokerDaemonModel.BrokerDaemon.BrowserLookupReply | apps/broker/src/daemon.ts:198-207 | The segment after the lookup |
| BrokerDaemonModel.BrokerDaemon.ReservePairingAttempt | apps/broker/src/daemon.ts:355-367 | The loop forgets old attempts, then counts or refuses |
| BrokerDaemonModel.BrokerDaemon.ReserveGlobalPairingAttempt | apps/broker/src/daemon.ts:369-384 | The same over all connections |
| BrokerDaemonModel.BrokerDaemon.AdmitPairing | apps/broker/src/daemon.ts:213-227 | The four limits in order |
| BrokerDaemonModel.BrokerDaemon.BrowserAuthPair | apps/broker/src/daemon.ts:208-231 | The segment up to the prompt |
| BrokerDaemonModel.BrokerDaemon.PairingApprovalReply | apps/broker/src/daemon.ts:237-259 | The segment after the prompt |
| BrokerDaemonModel.BrokerDaemon.BrowserAuthComplete | apps/broker/src/daemon.ts:261-289 | The segment up to its first write: the challenge is consumed before anything else |
| BrokerDaemonModel.BrokerDaemon.PairingPersisted | apps/broker/src/daemon.ts:287-298 | The segment after the key was written |
| BrokerDaemonModel.BrokerDaemon.AgentContextReleased | apps/broker/src/daemon.ts:298-310 | The segment after the agent context was released |
| NativeFraming.NativeRoundTrip | apps/broker/src/native-framing.ts:5-42 | Encoded messages come back exactly and in order for any split into chunks of at most the limit plus 5 bytes |
| NativeFraming.NativePrefixNeverFails | apps/broker/src/native-framing.ts:18-42 | Part-way through a valid stream the leftover is below the limit plus 4, so the receive-buffer check never fires |
| NativeFraming.ChunkingIsInvisible | apps/broker/src/native-framing.ts:18-42 | Any such split decodes like the undivided stream: same messages, same error, same leftover |
| NativeFraming.LargerChunkIsRefused | apps/broker/src/native-framing.ts:18-42 | The chunk bound is exact: a stream of messages of the largest size decodes in full when no chunk exceeds the limit plus 5 bytes, and is refused when a longer chunk follows a first chunk that lacks the last byte of a frame |
| NativeFraming.DrainExtends | apps/broker/src/native-framing.ts:28-39 | Bytes that arrive later never change what was decoded |
| NativeFraming.BadFrameEndsStream | apps/broker/src/native-framing.ts:28-39 | After valid messages the first frame whose body does not parse ends the stream with that error, for any split: no message after it is delivered |
| NativeFraming.LargeHeaderEndsStream | apps/broker/src/native-framing.ts:28-34 | A header above the limit ends the stream before any of its body arrives |
| NativeFraming.DrainStops | apps/broker/src/native-framing.ts:28-39 | Decoding without error stops at an incomplete frame |
| NativeFraming.EncodeNativeMessage | apps/broker/src/native-framing.ts:5-13 | Encoding succeeds if and only if the body is within the limit |
| NativeFraming.NativeMessageDecoder.PushChunk | apps/broker/src/native-framing.ts:18-42 | The loop over the buffer field is the decoding function, errors included |
| Wire.LineChunkingIsInvisible | apps/broker/src/wire.ts:90-113 | For any two splits of a stream, one decodes without error if and only if the other does, with the same messages and leftover |
| Wire.FeedIsDrain | apps/broker/src/wire.ts:93-112 | Any split decodes without error if and only if the undivided stream does |
| Wire.SentIsReceived | apps/broker/src/wire.ts:180-186 | Everything `send` emits is decoded back in order for any split |
| Wire.BadLineEndsStream | apps/broker/src/wire.ts:93-112 | After everything a peer sent and any number of empty lines, the first line that is too long or does not parse ends the stream with that error, for any split |
| Wire.DrainLinesExtends | apps/broker/src/wire.ts:96-107 | Bytes that arrive later never change what was decoded |
| Wire.JsonLineDecoder.PushChunk | apps/broker/src/wire.ts:93-112 | The loop over the buffer field is the decoding function, errors included |
| Wire.InboundRateBound | apps/broker/src/wire.ts:264-279 | At most 479 inbound requests are admitted in any half-open minute |
| Wire.InboundRateReached | apps/broker/src/wire.ts:264-279 | A run of requests of which 479 are admitted within one minute |
| Wire.InboundWindowHolds | apps/broker/src/wire.ts:264-279 | The minute that starts where a window started holds at most 240 admitted requests, however the run goes on |
| Wire.AdmitRunAccounts | apps/broker/src/wire.ts:264-279 | After any requests the inbound window accounts for all admitted ones, the first of a window at its start |
| Wire.RpcPeer.AdmitInboundRequest | apps/broker/src/wire.ts:264-279 | Admits or refuses and rolls the window over |
| FixedWindow.SpreadBounds | apps/broker/src/broker-state.ts:832-841 | A history whose events a given number of places apart are a width apart has at most that number in any interval of the width |
| FixedWindow.WindowHolds | apps/broker/src/broker-state.ts:832-841 | The interval of the current window holds no more than what it has charged |
| FixedWindow.KeptOn | apps/broker/src/broker-state.ts:832-841 | Whatever the counter does next, the interval of a past window stays within one limit |
| BrokerExpiry.RetiredBefore | apps/broker/src/broker-state.ts:876-889 | A request that retention may drop had ended before this call: no lease expires late enough to retire its request at once |

## Left out

- JSON text, zod schemas, URL parsing and Unicode normalisation: inputs arrive validated, an origin stands for a parsed URL of protocol http or https, and codecs are abstract; the JSON codec of the stream properties is assumed to round-trip.
- SHA-256, HMAC and ECDSA, random identifiers, nonces and keys: symbolic values, fresh identifiers and an abstract signature.
- Several clock readings inside one segment: the source reads the clock again for some fields, the model reads it once per segment.
- A clock that goes back: the rate, expiry and prompt results assume it does not. The audit results do not need this.
- Calls on a connection after it closed: the disconnect result assumes that the agent makes no new request afterwards.
- Lease and request objects as heap objects: they are entries of a field of the class addressed by identifier, so aliasing is by identifier.
- Events sent to browsers, titles, displayed URLs and ISO date strings in replies: output only.
- The audit writes of handlers that change no state afterwards: only the writes of a command and of a grant are awaited with something following.
- R2 and R3 approval in the policy engine: one abstract failure code, as the broker asks only in the prepare phase; the action kinds of these two classes are one constructor.
- Policy.LowRiskAllowed: states the allowed outcomes of the prepare phase only, as a low-risk action in the commit phase is denied by one branch.
- Pending calls, timeouts and the 32 concurrent inbound requests of `RpcPeer`: plumbing around the decoder and the window.
- Segment file names that denote one index twice, such as a leading zero, temporary files, permissions, owners and symbolic links in the audit directory: operating-system checks.
- The 16 KiB limit on the manifest file: four segments stay far below it.
- AuditLoggerModel.AuditLogger.Initialize: a second start of the same object after a failed one is not covered; callers discard the logger.
- The constructor's refusal of byte limits out of range: `Audit.OptionsValid` is its condition, required of the class.
- Append and manifest write errors that the same process survives, and deliberate rollback of the whole audit directory: outside the crash model; exhaustion of the generation counter is modelled.
- The write queue of the audit log: calls run one after another, which the queue guarantees.
- Device numbers, file modes, owners and close errors in file removal; a read is one atomic call on the bytes at that moment.
- FileRemoval.NothingElseLost: linked back means that the target name was given back; what the other process does with that name afterwards is its own.
- Creating files, manifests and directories in the installer, the doctor, the command line, the MCP adapter, autostart, the native-host relay, approval prompts, the kill switch and the extension: no state machine of their own.
