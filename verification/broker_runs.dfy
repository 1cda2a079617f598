/** Every segment keeps the invariant, so every run does. */
module BrokerRuns {
  import opened Wrappers
  import opened Broker
  import opened BrokerInvariants
  import opened BrokerLedger
  import opened BrokerWindows
  import opened BrokerBounds
  import opened BrokerSteps

  // ------------------------------------------------- commands after an await

  /** A command that changes stage without touching its lease. */
  lemma StageReaches(s: Broker, c: nat, stage: Stage, now: int)
    requires c < |s.commands| && s.commands[c].lease < |s.leases| && Inv(s, now)
    requires SuspendedStage(s.commands[c].stage) && SuspendedStage(stage)
    requires StageBytes(stage) == StageBytes(s.commands[c].stage)
    requires ReleasedInTime(s.leases[s.commands[c].lease], s.commands[c].(stage := stage), now)
    ensures Reaches(s, PutStage(s, c, stage), now)
  {
    var l := s.commands[c].lease;
    assert Balanced(s, l);
    assert s.leases[l := s.leases[l]] == s.leases;
    hide Balanced, Records, LeaseWindows, RequestWindows, Bounded, Moves;
    MoveReaches(s, c, stage, s.leases[l], now);
  }

  /** A snapshot that passed every check reserves its bytes on the lease. */
  lemma ReserveEgressReaches(s: Broker, c: nat, bytes: nat, now: int)
    requires c < |s.commands| && s.commands[c].lease < |s.leases| && Inv(s, now) && s.commands[c].stage.AwaitBrowser?
    requires var lease := s.leases[s.commands[c].lease]; LeaseActive(lease, now) && bytes <= lease.remainingEgress
    ensures var l := s.commands[c].lease;
            Reaches(s, PutStage(PutLease(s, l, s.leases[l].(remainingEgress := s.leases[l].remainingEgress - bytes)), c,
                                AwaitAudit(bytes, now)), now)
  {
    var l := s.commands[c].lease;
    assert Balanced(s, l);
    hide Balanced, Ledger, Records, LeaseWindows, RequestWindows, Bounded, Moves;
    MoveReaches(s, c, AwaitAudit(bytes, now), s.leases[l].(remainingEgress := s.leases[l].remainingEgress - bytes), now);
  }

  lemma ReplyReaches(s: Broker, c: nat, answer: BrowserAnswer, now: int)
    requires c < |s.commands| && s.commands[c].lease < |s.leases| && Inv(s, now) && s.commands[c].stage.AwaitBrowser?
    ensures Reaches(s, BrowserReplied(s, c, answer, now), now)
  {
    hide Records, Ledger, LeaseWindows, RequestWindows, Bounded, Moves;
    var l := s.commands[c].lease;
    if answer.BrowserError? {
      StageReaches(s, c, AwaitDenial, now);
    } else if !LeaseActive(s.leases[l], now) {
      var checked := CheckLease(s, l, now);
      CheckLeaseReaches(s, l, now);
      StageReaches(checked, c, AwaitDenial, now);
      MovesOn(s, checked, BrowserReplied(s, c, answer, now));
    } else if s.commands[c].kind != SnapshotKind {
      StageReaches(s, c, AwaitAudit(0, now), now);
    } else if EgressRefusal(s.leases[l], answer.bytes).Some? {
      StageReaches(s, c, AwaitDenial, now);
    } else {
      ReserveEgressReaches(s, c, answer.bytes.value, now);
    }
  }

  /** A command ends: it returns the bytes it had reserved, or fails with none reserved. */
  lemma FinishReaches(s: Broker, c: nat, stage: Stage, now: int)
    requires c < |s.commands| && s.commands[c].lease < |s.leases| && Inv(s, now) && SuspendedStage(s.commands[c].stage)
    requires StageBytes(stage) == StageBytes(s.commands[c].stage)
    requires stage == Failed
             || (s.commands[c].stage.AwaitAudit? && stage == Returned(s.commands[c].stage.reserved, s.commands[c].stage.checkedAt))
    ensures Reaches(s, Finish(PutStage(s, c, stage), s.commands[c].lease, now), now)
  {
    hide Inv, Moves, Finish;
    var l := s.commands[c].lease;
    var lease := s.leases[l];
    if lease.policy.remainingUses <= 0 && lease.inFlight == 1 {
      ExhaustedReaches(s, c, stage, now);
    } else {
      FinishPlain(s, c, stage, now);
      EndsReaches(s, c, stage, now);
    }
  }

  lemma ExhaustedReaches(s: Broker, c: nat, stage: Stage, now: int)
    requires c < |s.commands| && s.commands[c].lease < |s.leases| && Inv(s, now) && SuspendedStage(s.commands[c].stage)
    requires StageBytes(stage) == StageBytes(s.commands[c].stage)
    requires stage == Failed
             || (s.commands[c].stage.AwaitAudit? && stage == Returned(s.commands[c].stage.reserved, s.commands[c].stage.checkedAt))
    requires var lease := s.leases[s.commands[c].lease]; lease.policy.remainingUses <= 0 && lease.inFlight == 1
    ensures Reaches(s, Finish(PutStage(s, c, stage), s.commands[c].lease, now), now)
  {
    hide Inv, Moves, Finish;
    var l := s.commands[c].lease;
    var ended := RevokeLease(s, l, "USE_LIMIT_EXHAUSTED", now);
    FinishCommutes(s, c, stage, now);
    RevokeReaches(s, l, "USE_LIMIT_EXHAUSTED", now);
    assert ended.leases[l].revokedAt.Some?;
    EndsReaches(ended, c, stage, now);
    MovesOn(s, ended, Finish(PutStage(s, c, stage), l, now));
  }

  /** Ending the exhausted lease before or after counting its last command makes no difference. */
  lemma FinishCommutes(s: Broker, c: nat, stage: Stage, now: int)
    requires c < |s.commands| && s.commands[c].lease < |s.leases|
    requires var lease := s.leases[s.commands[c].lease]; lease.policy.remainingUses <= 0 && lease.inFlight == 1
    ensures var l := s.commands[c].lease;
            var ended := RevokeLease(s, l, "USE_LIMIT_EXHAUSTED", now);
            Finish(PutStage(s, c, stage), l, now)
            == PutStage(PutLease(ended, l, ended.leases[l].(inFlight := ended.leases[l].inFlight - 1)), c, stage)
  {
    var l := s.commands[c].lease;
    var ended := RevokeLease(s, l, "USE_LIMIT_EXHAUSTED", now);
    var one := Finish(PutStage(s, c, stage), l, now);
    var other := PutStage(PutLease(ended, l, ended.leases[l].(inFlight := ended.leases[l].inFlight - 1)), c, stage);
    assert one.leases == other.leases;
    assert one.requests == other.requests;
    assert one.commands == other.commands;
  }

  lemma FinishPlain(s: Broker, c: nat, stage: Stage, now: int)
    requires c < |s.commands| && s.commands[c].lease < |s.leases|
    requires var lease := s.leases[s.commands[c].lease]; lease.policy.remainingUses > 0 || lease.inFlight != 1
    ensures var l := s.commands[c].lease;
            Finish(PutStage(s, c, stage), l, now) == PutStage(PutLease(s, l, s.leases[l].(inFlight := s.leases[l].inFlight - 1)), c, stage)
  {
  }

  lemma EndsReaches(s: Broker, c: nat, stage: Stage, now: int)
    requires c < |s.commands| && s.commands[c].lease < |s.leases| && Inv(s, now) && SuspendedStage(s.commands[c].stage)
    requires StageBytes(stage) == StageBytes(s.commands[c].stage)
    requires stage == Failed
             || (s.commands[c].stage.AwaitAudit? && stage == Returned(s.commands[c].stage.reserved, s.commands[c].stage.checkedAt))
    requires var lease := s.leases[s.commands[c].lease];
             lease.revokedAt == None && lease.policy.remainingUses <= 0 ==> lease.inFlight != 1
    ensures var l := s.commands[c].lease;
            Reaches(s, PutStage(PutLease(s, l, s.leases[l].(inFlight := s.leases[l].inFlight - 1)), c, stage), now)
  {
    var l := s.commands[c].lease;
    assert Balanced(s, l) && ReleasedInTime(s.leases[l], s.commands[c], now);
    TallyReplace(s.commands, c, s.commands[c], l, SuspendedCommands);
    hide Tally, Records, LeaseWindows, RequestWindows, Bounded, Moves;
    MoveReaches(s, c, stage, s.leases[l].(inFlight := s.leases[l].inFlight - 1), now);
  }

  lemma SuccessReaches(s: Broker, c: nat, written: bool, now: int)
    requires c < |s.commands| && s.commands[c].lease < |s.leases| && Inv(s, now) && s.commands[c].stage.AwaitAudit?
    ensures Reaches(s, SuccessAudited(s, c, written, now), now)
  {
    hide Inv, Moves, Finish;
    var stage := s.commands[c].stage;
    if written {
      FinishReaches(s, c, Returned(stage.reserved, stage.checkedAt), now);
    } else {
      RefundReaches(s, c, now);
    }
  }

  /** The success audit failed: the reserved bytes go back to the lease. */
  lemma RefundReaches(s: Broker, c: nat, now: int)
    requires c < |s.commands| && s.commands[c].lease < |s.leases| && Inv(s, now) && s.commands[c].stage.AwaitAudit?
    ensures var l, stage := s.commands[c].lease, s.commands[c].stage;
            Reaches(s, PutStage(PutLease(s, l, s.leases[l].(remainingEgress := s.leases[l].remainingEgress + stage.reserved)), c,
                                AwaitDenial), now)
  {
    var l, stage := s.commands[c].lease, s.commands[c].stage;
    assert Balanced(s, l);
    hide Balanced, Ledger, Records, LeaseWindows, RequestWindows, Bounded, Moves;
    MoveReaches(s, c, AwaitDenial, s.leases[l].(remainingEgress := s.leases[l].remainingEgress + stage.reserved), now);
  }

  // ------------------------------------------------------- remaining handlers

  lemma DenyReaches(s: Broker, r: nat, now: int)
    requires Inv(s, now)
    ensures Reaches(s, DenyAccess(s, r, now).0, now)
  {
    StaysPut(s, now);
    if r in s.requestIds && s.requests[r].status == Pending {
      EndReaches(s, r, Denied, now);
    }
  }

  lemma RegisterReaches(s: Broker, ctx: nat, instance: string, now: int)
    requires Inv(s, now) && ctx < |s.contexts|
    ensures Reaches(s, ExpireRecords(RegisterBrowser(s, ctx, instance), now), now)
  {
    var t := RegisterBrowser(s, ctx, instance);
    AroundReaches(s, t, now);
    ExpireReaches(t, now);
    MovesOn(s, t, ExpireRecords(t, now));
  }

  lemma RecordedRevokeReaches(s: Broker, l: nat, reason: string, now: int)
    requires Inv(s, now)
    ensures l in s.leaseIds ==> l < |s.leases| && Reaches(s, RevokeLease(s, l, reason, now), now)
  {
    if l in s.leaseIds {
      RevokeReaches(s, l, reason, now);
    }
  }

  lemma HandleReaches(s: Broker, e: Event, now: int)
    requires IdsInHeap(s) && IsCall(e) && Enabled(s, e) && Inv(s, now) && 0 < now
    ensures Reaches(s, Handle(s, e, now), now)
  {
    hide Inv, Moves, RevokeLease, RequestAccess, ExpireRecords, BeginCommand, RegisterBrowser, GrantAccess, DenyAccess;
    StaysPut(s, now);
    match e
    case ERequest(ctx, params) => RequestReaches(s, ctx, params, now);
    case EStatus(_) => ExpireReaches(s, now);
    case EAgentRevoke(_, l) => RecordedRevokeReaches(s, l, "AGENT_REVOKED", now);
    case EExecute(ctx, l, call) => BeginReaches(s, ctx, l, call, now);
    case ERegister(ctx, instance) => RegisterReaches(s, ctx, instance, now);
    case EGrant(ctx, params) => GrantReaches(s, ctx, params, now);
    case EDeny(_, r) => DenyReaches(s, r, now);
    case EBrowserRevoke(_, l, reason) => RecordedRevokeReaches(s, l, reason, now);
    case _ =>
  }

  lemma ResumeReaches(s: Broker, e: Event, now: int)
    requires Inv(s, now) && !IsCall(e) && Enabled(s, e)
    ensures Reaches(s, Resume(s, e, now), now)
  {
    StaysPut(s, now);
    assert IdsInHeap(s);
    hide Inv, Moves, CheckLease, BrowserReplied, SuccessAudited, Finish, Disconnect;
    match e
    case ECreate(_, _, _) => AroundReaches(s, Resume(s, e, now), now);
    case EGrantReply(l) => CheckLeaseReaches(s, l, now);
    case EBrowserReply(c, answer) => ReplyReaches(s, c, answer, now);
    case ESuccessAudit(c, written) => SuccessReaches(s, c, written, now);
    case EDenialAudit(c) => FinishReaches(s, c, Failed, now);
    case EDisconnect(ctx) => DisconnectReaches(s, ctx, now);
  }

  /** One segment of any handler keeps the invariant and moves every record forward. */
  lemma StepReaches(s: Broker, e: Event, clock: int, now: int)
    requires Inv(s, clock) && clock <= now && 0 < now
    ensures Reaches(s, Step(s, e, now), now)
  {
    LaterKeepsInv(s, clock, now);
    StaysPut(s, now);
    assert IdsInHeap(s);
    hide Inv, Moves, Maintain, Handle, Resume, Enabled, IdsInHeap, IsCall;
    if Enabled(s, e) {
      if IsCall(e) {
        StaysEnabled(s, e, now);
        MaintainReaches(s, now);
        HandleReaches(Maintain(s, now), e, now);
        MovesOn(s, Maintain(s, now), Step(s, e, now));
      } else {
        ResumeReaches(s, e, now);
      }
    }
  }

  lemma StaysEnabled(s: Broker, e: Event, now: int)
    requires IdsInHeap(s) && IsCall(e) && Enabled(s, e)
    ensures Enabled(Maintain(s, now), e)
  {
  }

  // --------------------------------------------------------------------- runs

  lemma StartKeepsInv(secret: nat)
    ensures Inv(Start(secret), 0)
  {
    assert PendingSet([]) == {};
    assert forall session: nat :: SessionPendingSet([], session) == {};
  }

  /** The invariant holds in every state of every run. */
  lemma {:induction false} RunKeepsInv(x: Execution, i: nat)
    requires Behaves(x) && i < |x.states|
    ensures Inv(x.states[i], Clock(x, i))
  {
    hide Inv, Step, Start;
    if i == 0 {
      StartKeepsInv(x.secret);
    } else {
      RunKeepsInv(x, i - 1);
      assert StepsTo(x, i - 1);
      StepReaches(x.states[i - 1], x.events[i - 1].event, Clock(x, i - 1), x.events[i - 1].now);
    }
  }

  /** Along a run no record is replaced and no end is undone. */
  lemma {:induction false} RunMoves(x: Execution, i: nat, j: nat)
    requires Behaves(x) && i <= j < |x.states|
    ensures Moves(x.states[i], x.states[j])
    decreases j
  {
    hide Inv, Step, Moves;
    RunKeepsInv(x, j);
    if i == j {
      StaysPut(x.states[j], Clock(x, j));
    } else {
      RunMoves(x, i, j - 1);
      RunKeepsInv(x, j - 1);
      assert StepsTo(x, j - 1);
      StepReaches(x.states[j - 1], x.events[j - 1].event, Clock(x, j - 1), x.events[j - 1].now);
      MovesOn(x.states[i], x.states[j - 1], x.states[j]);
    }
  }
}
