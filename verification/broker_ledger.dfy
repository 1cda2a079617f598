/** The budgets of a lease across interleaved commands, and the rate windows. */
module BrokerLedger {
  import opened Wrappers
  import opened Policy
  import opened Broker

  // --------------------------------------------------------------- tallies

  /** What is added up over the commands of a lease. */
  datatype Measure = AdmittedCommands | SuspendedCommands | EgressBytes

  predicate SuspendedStage(stage: Stage) {
    stage.AwaitBrowser? || stage.AwaitAudit? || stage.AwaitDenial?
  }

  /** Bytes reserved by a snapshot that awaits its success audit, or returned by one that has it. */
  function StageBytes(stage: Stage): nat {
    match stage
    case AwaitAudit(reserved, _) => reserved
    case Returned(bytes, _) => bytes
    case _ => 0
  }

  function Weight(command: Command, l: nat, m: Measure): nat {
    if command.lease != l then 0
    else
      match m
      case AdmittedCommands => 1
      case SuspendedCommands => if SuspendedStage(command.stage) then 1 else 0
      case EgressBytes => StageBytes(command.stage)
  }

  function Tally(commands: seq<Command>, l: nat, m: Measure): nat {
    if commands == [] then 0
    else Tally(commands[..|commands| - 1], l, m) + Weight(commands[|commands| - 1], l, m)
  }

  lemma TallyAppend(commands: seq<Command>, command: Command, l: nat, m: Measure)
    ensures Tally(commands + [command], l, m) == Tally(commands, l, m) + Weight(command, l, m)
  {
    assert (commands + [command])[..|commands|] == commands;
  }

  /** Replacing one command shifts each tally by the difference of its weights. */
  lemma {:induction false} TallyReplace(commands: seq<Command>, c: nat, command: Command, l: nat, m: Measure)
    requires c < |commands|
    ensures Tally(commands[c := command], l, m) == Tally(commands, l, m) - Weight(commands[c], l, m) + Weight(command, l, m)
    ensures Weight(commands[c], l, m) <= Tally(commands, l, m)
  {
    var last := |commands| - 1;
    var replaced := commands[c := command];
    if c == last {
      assert replaced[..last] == commands[..last];
    } else {
      TallyReplace(commands[..last], c, command, l, m);
      assert replaced[..last] == commands[..last][c := command];
    }
  }

  lemma {:induction false} TallyNone(commands: seq<Command>, l: nat, m: Measure)
    requires forall c | 0 <= c < |commands| :: commands[c].lease != l
    ensures Tally(commands, l, m) == 0
  {
    if commands != [] {
      TallyNone(commands[..|commands| - 1], l, m);
    }
  }

  // ---------------------------------------------------------------- ledger

  function EgressBudget(lease: Lease): nat {
    if DataEgressModel in lease.scopes then LEASE_EGRESS_BUDGET_BYTES else 0
  }

  /**
   * The ledger of one lease: uses left plus commands admitted is the use limit; the in-flight counter
   * is the number of suspended commands and at most two; egress left plus the bytes awaiting their
   * audit plus the bytes of returned snapshots is the initial budget.
   */
  ghost predicate Balanced(s: Broker, l: nat)
    requires l < |s.leases|
  {
    var lease := s.leases[l];
    && lease.policy.remainingUses >= 0 && lease.remainingEgress >= 0
    && lease.policy.remainingUses + Tally(s.commands, l, AdmittedCommands) == LEASE_USE_LIMIT
    && lease.inFlight == Tally(s.commands, l, SuspendedCommands) <= LEASE_MAX_IN_FLIGHT
    && lease.remainingEgress + Tally(s.commands, l, EgressBytes) == EgressBudget(lease)
    && (lease.revokedAt == None && lease.policy.remainingUses == 0 ==> lease.inFlight > 0)
  }

  /** A result passes on only from a lease found active after the browser replied. */
  ghost predicate ReleasedInTime(lease: Lease, command: Command, clock: int) {
    match command.stage
    case AwaitAudit(reserved, at) => at <= clock && at < lease.expiresAt && (lease.revokedAt.Some? ==> at <= lease.revokedAt.value)
    case Returned(bytes, at) => at <= clock && at < lease.expiresAt && (lease.revokedAt.Some? ==> at <= lease.revokedAt.value)
    case _ => true
  }

  ghost predicate Ledger(s: Broker, clock: int) {
    && (forall c | 0 <= c < |s.commands| :: s.commands[c].lease < |s.leases|)
    && (forall l | 0 <= l < |s.leases| :: Balanced(s, l))
    && (forall c | 0 <= c < |s.commands| :: ReleasedInTime(s.leases[s.commands[c].lease], s.commands[c], clock))
  }

  /** A lease whose balance, budget and expiry did not change, apart from being revoked now. */
  ghost predicate SameBalance(before: Lease, after: Lease, now: int) {
    && after.policy.remainingUses == before.policy.remainingUses
    && after.inFlight == before.inFlight
    && after.remainingEgress == before.remainingEgress
    && after.scopes == before.scopes && after.expiresAt == before.expiresAt
    && (after.revokedAt == before.revokedAt || after.revokedAt == Some(now))
  }

  lemma LaterKeepsLedger(s: Broker, clock: int, now: int)
    requires Ledger(s, clock) && clock <= now
    ensures Ledger(s, now)
  {
  }

  /** A step that admits and moves no command and changes no balance. */
  lemma QuietKeepsLedger(s: Broker, after: Broker, now: int)
    requires Ledger(s, now)
    requires after.commands == s.commands && |after.leases| == |s.leases|
    requires forall l | 0 <= l < |s.leases| :: SameBalance(s.leases[l], after.leases[l], now)
    ensures Ledger(after, now)
  {
    forall l | 0 <= l < |after.leases| ensures Balanced(after, l) {
      assert Balanced(s, l);
      assert SameBalance(s.leases[l], after.leases[l], now);
    }
    forall c | 0 <= c < |after.commands| ensures ReleasedInTime(after.leases[after.commands[c].lease], after.commands[c], now) {
      assert SameBalance(s.leases[s.commands[c].lease], after.leases[s.commands[c].lease], now);
      assert ReleasedInTime(s.leases[s.commands[c].lease], s.commands[c], now);
    }
  }

  lemma RevokeKeepsLedger(s: Broker, l: nat, reason: string, now: int)
    requires Ledger(s, now) && l < |s.leases|
    ensures Ledger(RevokeLease(s, l, reason, now), now)
  {
    QuietKeepsLedger(s, RevokeLease(s, l, reason, now), now);
  }

  lemma AddLeaseKeepsLedger(s: Broker, r: nat, lease: Lease, now: int)
    requires Ledger(s, now) && r < |s.requests|
    requires lease.policy.remainingUses == LEASE_USE_LIMIT && lease.inFlight == 0 && lease.remainingEgress == EgressBudget(lease)
    ensures Ledger(AddLease(s, r, lease, now), now)
  {
    var after := AddLease(s, r, lease, now);
    forall l | 0 <= l < |after.leases| ensures Balanced(after, l) {
      if l < |s.leases| {
        assert Balanced(s, l);
      } else {
        TallyNone(s.commands, l, AdmittedCommands);
        TallyNone(s.commands, l, SuspendedCommands);
        TallyNone(s.commands, l, EgressBytes);
      }
    }
    forall c | 0 <= c < |after.commands| ensures ReleasedInTime(after.leases[after.commands[c].lease], after.commands[c], now) {
      assert ReleasedInTime(s.leases[s.commands[c].lease], s.commands[c], now);
    }
  }

  /** Admitting a command moves one use to the admitted side and one command in flight. */
  lemma AdmitKeepsLedger(s: Broker, l: nat, kind: Kind, now: int)
    requires Ledger(s, now) && l < |s.leases|
    requires ReserveCommand(s.leases[l], now).1 == None
    ensures Ledger(AddCommand(PutLease(s, l, ReserveCommand(s.leases[l], now).0), Command(l, kind, now, AwaitBrowser)), now)
  {
    var command := Command(l, kind, now, AwaitBrowser);
    var after := AddCommand(PutLease(s, l, ReserveCommand(s.leases[l], now).0), command);
    forall k | 0 <= k < |after.leases| ensures Balanced(after, k) {
      assert Balanced(s, k);
      TallyAppend(s.commands, command, k, AdmittedCommands);
      TallyAppend(s.commands, command, k, SuspendedCommands);
      TallyAppend(s.commands, command, k, EgressBytes);
    }
    forall c | 0 <= c < |after.commands| ensures ReleasedInTime(after.leases[after.commands[c].lease], after.commands[c], now) {
      if c < |s.commands| {
        assert after.commands[c] == s.commands[c];
        assert ReleasedInTime(s.leases[s.commands[c].lease], s.commands[c], now);
      }
    }
  }

  /**
   * A command of lease `l` moves to another stage while its lease's counters move by the same amounts.
   * This is the one bookkeeping rule behind replies, refunds, returns and failures.
   */
  lemma MoveKeepsLedger(s: Broker, c: nat, stage: Stage, lease: Lease, now: int)
    requires Ledger(s, now) && c < |s.commands|
    requires var l, command := s.commands[c].lease, s.commands[c];
             var moved := command.(stage := stage);
             && SameBalance(s.leases[l].(inFlight := lease.inFlight, remainingEgress := lease.remainingEgress), lease, now)
             && lease.inFlight - s.leases[l].inFlight ==
                Weight(moved, l, SuspendedCommands) - Weight(command, l, SuspendedCommands)
             && lease.inFlight <= s.leases[l].inFlight
             && lease.remainingEgress - s.leases[l].remainingEgress ==
                Weight(command, l, EgressBytes) - Weight(moved, l, EgressBytes)
             && lease.remainingEgress >= 0
             && (lease.revokedAt == None && lease.policy.remainingUses == 0 ==> lease.inFlight > 0)
             && ReleasedInTime(lease, moved, now)
    ensures Ledger(PutStage(PutLease(s, s.commands[c].lease, lease), c, stage), now)
  {
    var l := s.commands[c].lease;
    var moved := s.commands[c].(stage := stage);
    var after := PutStage(PutLease(s, l, lease), c, stage);
    forall k | 0 <= k < |after.leases| ensures Balanced(after, k) {
      assert Balanced(s, k);
      TallyReplace(s.commands, c, moved, k, AdmittedCommands);
      TallyReplace(s.commands, c, moved, k, SuspendedCommands);
      TallyReplace(s.commands, c, moved, k, EgressBytes);
    }
    forall k | 0 <= k < |after.commands| ensures ReleasedInTime(after.leases[after.commands[k].lease], after.commands[k], now) {
      if k != c {
        assert ReleasedInTime(s.leases[s.commands[k].lease], s.commands[k], now);
      }
    }
  }
}
