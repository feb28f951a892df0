/** Who can make the escrow contract pay, what a creation takes, and how a dispute is divided. */
module EscrowAuthority {
  import opened Options
  import opened Sums
  import opened Ledger
  import opened Fees
  import opened EscrowModel
  import opened EscrowFrames
  import opened EscrowFunds
  import EscrowIndex

  // ---------------------------------------------------------------- payouts

  function Paid(w: World, id: nat): int {
    Lookup(w.vault.paid, id, 0)
  }

  predicate LearnerOrAdmin(w: World, id: nat, caller: Address) {
    w.HasStatus(id, Active) && (caller == w.vault.escrows[id].learner || caller == w.config.admin)
  }

  /** Four registered approvers, a day of delay, and the emergency admin in person within 72 hours of the grant. */
  predicate EmergencyAuthorised(w: World, caller: Address, a: EmergencyAction) {
    && w.config.emergencySigners.Some? && ValidSignatures(w.config.emergencySigners.value, a.signers)
    && w.now >= a.executeAfter
    && w.config.emergencyAdmin.Some? && w.config.emergencyAdmin.value.admin == caller && w.now < w.config.emergencyAdmin.value.expiresAt
  }

  /** The only ways to move money out of escrow `id`. A mentor who is nothing else has none. */
  predicate Authorised(w: World, c: Call, id: nat) {
    match c
    case CallRelease(caller, k, _) => k == id && LearnerOrAdmin(w, id, caller) && id !in w.isolated
    case CallPartial(caller, k, _) => k == id && LearnerOrAdmin(w, id, caller)
    case CallBatch(caller, k, _, _) => k == id && w.HasStatus(id, Active) && caller == w.config.admin
    case CallAdminRelease(caller, k, _) => k == id && w.HasStatus(id, Active) && caller == w.config.admin
    case CallManualRecovery(caller, k) => k == id && w.HasStatus(id, Active) && caller == w.config.admin && ManualRecoveryOpen(w, id)
    case CallAutoRelease(k, ok, _) => k == id && ok && AutoReleaseDue(w, id)
    case CallResolve(caller, k, _) => k == id && w.HasStatus(id, Disputed) && caller == w.config.admin && id !in w.isolated
    case CallRefund(caller, k) => k == id && id in w.vault.escrows && !Terminal(w.vault.escrows[id].status) && caller == w.config.admin
    case CallExecuteEmergency(caller, aid) =>
      && aid in w.emergency.actions && w.emergency.actions[aid].params.escrowId == id
      && w.HasStatus(id, Active) && EmergencyAuthorised(w, caller, w.emergency.actions[aid])
    case _ => false
  }

  lemma PayOutPays(w: World, k: nat, gross: int, fee: int, n: nat, closes: bool, actor: Address, id: nat)
    requires k in w.vault.escrows && PayOut(w, k, gross, fee, n, closes, actor).Some?
    ensures Paid(PayOut(w, k, gross, fee, n, closes, actor).value, id) == Paid(w, id) + if k == id then gross else 0
  {
  }

  lemma ReleasesPay(w: World, c: Call, id: nat)
    requires Releases(c) && AttemptRelease(w, c).Some? && Paid(AttemptRelease(w, c).value, id) != Paid(w, id)
    ensures Authorised(w, c, id)
  {
    if Pays(c) {
      ReleaseIsPayout(w, c);
      var p := PayoutOf(w, c);
      PayOutPays(w, p.id, p.gross, p.fee, p.sessions, p.closes, p.actor, id);
    }
  }

  lemma EmergencyPays(w: World, caller: Address, aid: nat, id: nat)
    requires ExecuteEmergency(w, caller, aid).Some? && Paid(ExecuteEmergency(w, caller, aid).value.0, id) != Paid(w, id)
    ensures Authorised(w, CallExecuteEmergency(caller, aid), id)
  {
    EmergencyPaysOut(w, caller, aid);
    var k := w.emergency.actions[aid].params.escrowId;
    if ExecuteEmergency(w, caller, aid).value.1 {
      PayOutPays(w, k, w.vault.escrows[k].amount, FlatFee(w.config.fees.feeBps, w.vault.escrows[k].amount), 0, true, caller, id);
      AdmissionAuthorises(w, caller, aid);
    }
  }

  lemma AdmissionAuthorises(w: World, caller: Address, aid: nat)
    requires ExecuteEmergency(w, caller, aid).Some? && ExecuteEmergency(w, caller, aid).value.1
    ensures EmergencyAuthorised(w, caller, w.emergency.actions[aid])
  {
  }

  lemma SettlesPay(w: World, c: Call, id: nat)
    requires Settles(c) && AttemptSettle(w, c).Some? && Paid(AttemptSettle(w, c).value, id) != Paid(w, id)
    ensures Authorised(w, c, id)
  {
    match c
    case CallExecuteEmergency(caller, aid) => EmergencyPays(w, caller, aid, id);
    case _ =>
  }

  /**
   Nobody moves money out of an escrow without standing: whatever a call pays out of escrow `id`, it is
   the learner or the admin releasing, the admin splitting, refunding or recovering, the clock with all
   prechecks passed, or a fully approved emergency action.
   */
  lemma PayoutsAreAuthorised(w: World, c: Call, id: nat)
    requires Attempt(w, c).Some? && Paid(Attempt(w, c).value, id) != Paid(w, id)
    ensures Authorised(w, c, id)
  {
    if Creates(c) {
      CreatesFrame(w, c);
    } else if Releases(c) {
      ReleasesPay(w, c, id);
    } else if Settles(c) {
      SettlesPay(w, c, id);
    } else if Configures(c) {
      ConfiguresFrame(w, c);
    }
  }

  lemma SettlesPayNoMilestone(w: World, c: Call)
    requires Settles(c) && !c.CallCompleteMilestone? && AttemptSettle(w, c).Some?
    ensures AttemptSettle(w, c).value.vault.msPaid == w.vault.msPaid
  {
    match c
    case CallExecuteEmergency(caller, aid) => EmergencyPaysOut(w, caller, aid);
    case CallDispute(_, _, _) =>
    case CallResolve(_, _, _) =>
    case CallRefund(_, _) =>
    case CallDisputeMilestone(_, _, _) =>
  }

  /** Only the learner pays out a milestone, and only a pending one of an Active milestone escrow. */
  lemma MilestonePayoutsAreAuthorised(w: World, c: Call, k: (nat, nat))
    requires Attempt(w, c).Some? && Lookup(Attempt(w, c).value.vault.msPaid, k, 0) != Lookup(w.vault.msPaid, k, 0)
    ensures c.CallCompleteMilestone? && k == (c.id, c.index)
    ensures MilestoneOpen(w.vault, k.0, k.1) && c.caller == w.vault.milestones[k.0].learner
  {
    if Creates(c) {
      CreatesFrame(w, c);
    } else if Releases(c) {
      ReleasesFrame(w, c);
    } else if Settles(c) {
      if c.CallCompleteMilestone? {
        CompletionPaysOne(w, c.caller, c.id, c.index, c.q, k);
      } else {
        SettlesPayNoMilestone(w, c);
      }
    } else if Configures(c) {
      ConfiguresFrame(w, c);
    }
  }

  lemma CompletionPaysOne(w: World, caller: Address, id: nat, index: nat, q: Quote, k: (nat, nat))
    requires CompleteMilestone(w, caller, id, index, q).Some?
    ensures MilestoneOpen(w.vault, id, index) && caller == w.vault.milestones[id].learner
    ensures k != (id, index) ==> Lookup(CompleteMilestone(w, caller, id, index, q).value.vault.msPaid, k, 0) == Lookup(w.vault.msPaid, k, 0)
  {
  }

  /** Completing a milestone moves its recorded fee to the treasury and its recorded net to the mentor, together its amount, and nothing else. */
  lemma MilestonePaysTheRightHands(v: Vault, treasury: Address, id: nat, index: nat, fee: int, t: Address, who: Address)
    requires MilestoneOpen(v, id, index) && fee >= 0 && PayMilestone(v, treasury, id, index, fee).Some?
    ensures var v' := PayMilestone(v, treasury, id, index, fee).value;
      && id in v'.milestones
      && (var m, m' := v.milestones[id], v'.milestones[id];
          var toTreasury, toMentor := m'.platformFee - m.platformFee, m'.netAmount - m.netAmount;
          && toTreasury + toMentor == m.amounts[index]
          && Balance(v'.bank, t, who) - Balance(v.bank, t, who)
               == (if t == m.token && who == treasury then toTreasury else 0)
                + (if t == m.token && who == m.mentor then toMentor else 0)
                - (if t == m.token && who == SELF then m.amounts[index] else 0))
  {
    var m := v.milestones[id];
    PaySplitBalances(v.bank, m.token, treasury, m.mentor, m.amounts[index], fee, t, who);
  }

  // ---------------------------------------------------------------- exactly when a call succeeds

  predicate ReleaseAllowed(w: World, c: Call)
    requires Releases(c)
  {
    match c
    case CallRelease(caller, id, _) =>
      && LearnerOrAdmin(w, id, caller) && id !in w.isolated
      && InteractionMinutes(w.vault.escrows[id]) >= REQUIRED_INTERACTION_MINUTES
      && LowFeeCount(w, w.vault.escrows[id]) <= MAX_LOW_FEE_SESSIONS_PER_PAIR
    case CallPartial(caller, id, _) => LearnerOrAdmin(w, id, caller)
    case CallBatch(caller, id, n, _) =>
      && w.HasStatus(id, Active) && caller == w.config.admin
      && 0 < n <= w.vault.escrows[id].totalSessions - w.vault.escrows[id].sessionsDone
    case CallAdminRelease(caller, id, _) => w.HasStatus(id, Active) && caller == w.config.admin
    case CallAutoRelease(id, _, _) => AutoReleaseDue(w, id)
    case CallManualRecovery(caller, id) => w.HasStatus(id, Active) && caller == w.config.admin && ManualRecoveryOpen(w, id)
  }

  predicate SettleAllowed(w: World, c: Call)
    requires Settles(c)
  {
    match c
    case CallDispute(caller, id, _) =>
      w.HasStatus(id, Active) && (caller == w.vault.escrows[id].mentor || caller == w.vault.escrows[id].learner)
    case CallResolve(caller, id, pct) => w.HasStatus(id, Disputed) && caller == w.config.admin && pct <= 100 && id !in w.isolated
    case CallRefund(caller, id) => caller == w.config.admin && (w.HasStatus(id, Active) || w.HasStatus(id, Disputed))
    case CallExecuteEmergency(_, aid) =>
      && aid in w.emergency.actions && !w.emergency.actions[aid].executed && !w.emergency.actions[aid].failed
      && w.emergency.actions[aid].params !in w.emergency.failedParams && w.config.emergencySigners.Some?
    case CallCompleteMilestone(caller, id, index, _) => MilestoneOpen(w.vault, id, index) && caller == w.vault.milestones[id].learner
    case CallDisputeMilestone(signers, id, index) =>
      MilestoneOpen(w.vault, id, index) && w.vault.milestones[id].mentor in signers && w.vault.milestones[id].learner in signers
  }

  lemma AllowedReleaseSucceeds(w: World, c: Call)
    requires Inv(w) && Releases(c) && ReleaseAllowed(w, c)
    ensures AttemptRelease(w, c).Some?
  {
    match c
    case CallRelease(caller, id, q) => OrdinaryReleaseSucceeds(w, caller, id, q);
    case CallPartial(caller, id, q) => PaySessionsKeeps(w, id, 1, q, caller);
    case CallBatch(caller, id, n, q) => PaySessionsKeeps(w, id, n, q, caller);
    case CallAdminRelease(caller, id, q) => ReleaseRestKeeps(w, id, q, caller);
    case CallAutoRelease(id, ok, q) => ReleaseRestKeeps(w, id, q, SELF);
    case CallManualRecovery(caller, id) => ReleaseRestKeeps(w, id, Quote(0, 0), caller);
  }

  lemma OrdinaryReleaseSucceeds(w: World, caller: Address, id: nat, q: Quote)
    requires Inv(w) && ReleaseAllowed(w, CallRelease(caller, id, q))
    ensures ReleaseFunds(w, caller, id, q).Some?
  {
    var e := w.vault.escrows[id];
    var counted := w.(lowFee := w.lowFee[(e.mentor, e.learner) := LowFeeCount(w, e)]);
    ReleaseRestKeeps(counted, id, q, caller);
  }

  lemma OnlyAllowedReleases(w: World, c: Call)
    requires Releases(c) && AttemptRelease(w, c).Some?
    ensures ReleaseAllowed(w, c)
  {
  }

  lemma AllowedSettlementSucceeds(w: World, c: Call)
    requires Inv(w) && Settles(c) && SettleAllowed(w, c)
    ensures AttemptSettle(w, c).Some?
  {
    match c
    case CallDispute(caller, id, reason) =>
    case CallResolve(caller, id, pct) => ResolveKeeps(w, caller, id, pct);
    case CallRefund(caller, id) => RefundKeeps(w, caller, id);
    case CallExecuteEmergency(caller, aid) => EmergencySucceeds(w, caller, aid);
    case CallCompleteMilestone(caller, id, index, q) => CompleteMilestoneKeeps(w, caller, id, index, q);
    case CallDisputeMilestone(signers, id, index) =>
  }

  lemma EmergencySucceeds(w: World, caller: Address, aid: nat)
    requires Inv(w) && SettleAllowed(w, CallExecuteEmergency(caller, aid))
    ensures ExecuteEmergency(w, caller, aid).Some?
  {
    var id := w.emergency.actions[aid].params.escrowId;
    if w.HasStatus(id, Active) {
      ReleaseRestKeeps(w, id, Quote(0, 0), caller);
    }
  }

  lemma OnlyAllowedSettlements(w: World, c: Call)
    requires Inv(w) && Settles(c) && AttemptSettle(w, c).Some?
    ensures SettleAllowed(w, c)
  {
    if c.CallRefund? {
      assert AccountOk(w.vault.escrows[c.id], Lookup(w.vault.paid, c.id, 0));
    }
  }

  /**
   In every reachable state a release or settlement is refused by its own checks only. No token trap, no
   underflow, no illegal transition and no missing session stands in the way of an allowed call.
   */
  lemma CallsSucceedIff(w: World, calls: seq<Call>, c: Call)
    requires Inv(w) && (Releases(c) || Settles(c))
    ensures Attempt(Run(w, calls), c).Some? <==> if Releases(c) then ReleaseAllowed(Run(w, calls), c) else SettleAllowed(Run(w, calls), c)
  {
    RunKeeps(w, calls);
    var now := Run(w, calls);
    if Attempt(now, c).Some? {
      if Releases(c) { OnlyAllowedReleases(now, c); } else { OnlyAllowedSettlements(now, c); }
    } else if Releases(c) {
      if ReleaseAllowed(now, c) { AllowedReleaseSucceeds(now, c); }
    } else if SettleAllowed(now, c) {
      AllowedSettlementSucceeds(now, c);
    }
  }

  /** What emergencies have released in the window that is open now. */
  function ReleasedInWindow(w: World): int {
    match w.emergency.circuit
    case Some(c) => if w.now < c.windowStart + EMERGENCY_CIRCUIT_WINDOW_SECS then c.released else 0
    case None => 0
  }

  /** The Active escrow still holds what was proposed, and with it the window stays within a tenth of the Active pool. */
  predicate EmergencyFits(w: World, p: Params) {
    && w.HasStatus(p.escrowId, Active) && w.vault.escrows[p.escrowId].amount == p.amount
    && 10 * (ReleasedInWindow(w) + p.amount) <= ActivePool(w.vault.escrows, w.vault.escrowCount)
  }

  lemma PoolIsPositive(w: World)
    ensures ActivePool(w.vault.escrows, w.vault.escrowCount) >= 0
  {
    SumToBounds(ActiveAmounts(w.vault.escrows), w.vault.escrowCount, 0);
  }

  lemma BreakerOpensIff(circuit: Option<Circuit>, now: nat, pool: nat, amount: int)
    ensures NextCircuit(circuit.GetOr(Circuit(now, 0)), now, pool, amount).Some? <==>
      10 * ((if circuit.Some? && now < circuit.value.windowStart + EMERGENCY_CIRCUIT_WINDOW_SECS then circuit.value.released else 0) + amount) <= pool
  {
  }

  lemma AdmittedIff(w: World, caller: Address, a: EmergencyAction)
    ensures EmergencyAdmitted(w, caller, a).Some? <==> EmergencyAuthorised(w, caller, a) && EmergencyFits(w, a.params)
  {
    PoolIsPositive(w);
    BreakerOpensIff(w.emergency.circuit, w.now, ActivePool(w.vault.escrows, w.vault.escrowCount), a.params.amount);
  }

  /** An open action whose parameters never failed, authorised and fitting. */
  predicate EmergencyReleases(w: World, caller: Address, aid: nat) {
    && SettleAllowed(w, CallExecuteEmergency(caller, aid))
    && EmergencyAuthorised(w, caller, w.emergency.actions[aid]) && EmergencyFits(w, w.emergency.actions[aid].params)
  }

  /** Nothing but the emergency record changed, and there the action is marked failed and its parameters are blocked. */
  predicate FailureRecorded(w: World, w': World, aid: nat) {
    && w' == w.(emergency := w'.emergency) && w'.emergency.circuit == w.emergency.circuit
    && aid in w.emergency.actions && aid in w'.emergency.actions
    && w'.emergency.actions[aid] == w.emergency.actions[aid].(failed := true)
    && w.emergency.actions[aid].params in w'.emergency.failedParams
  }

  lemma EmergencyOutcome(w: World, caller: Address, aid: nat, r: Option<(World, bool)>)
    requires r == ExecuteEmergency(w, caller, aid)
    ensures r.Some? ==> (r.value.1 <==> EmergencyReleases(w, caller, aid))
    ensures r.Some? && !r.value.1 ==> FailureRecorded(w, r.value.0, aid)
  {
    if r.Some? {
      AdmittedIff(w, caller, w.emergency.actions[aid]);
    }
  }

  /**
   In every reachable state an emergency execution releases the escrow if and only if the action is open, authorised
   and fits; every other execution that is accepted as a call only records the failure.
   */
  lemma EmergencyReleasesIff(w: World, calls: seq<Call>, caller: Address, aid: nat)
    requires Inv(w)
    ensures var now := Run(w, calls); var r := ExecuteEmergency(now, caller, aid);
      && (r.Some? && r.value.1 <==> EmergencyReleases(now, caller, aid))
      && (r.Some? && !r.value.1 ==> FailureRecorded(now, r.value.0, aid))
  {
    var now := Run(w, calls);
    RunKeeps(w, calls);
    if EmergencyReleases(now, caller, aid) {
      EmergencySucceeds(now, caller, aid);
    }
    EmergencyOutcome(now, caller, aid, ExecuteEmergency(now, caller, aid));
  }

  /** No escrow carries this session id. */
  ghost predicate NeverUsed(w: World, session: Symbol) {
    forall id :: id in w.vault.escrows ==> w.vault.escrows[id].sessionId != session
  }

  predicate Affordable(w: World, learner: Address, token: Address, amount: int, sessions: nat) {
    && 0 < sessions <= amount <= MAX_FINANCIAL_AMOUNT && token in w.config.approved
    && learner != SELF && amount <= Balance(w.vault.bank, token, learner)
  }

  ghost predicate CreationAllowed(w: World, c: Call)
    requires Creates(c)
  {
    match c
    case CallCreate(_, learner, amount, session, token, end, n) =>
      && Affordable(w, learner, token, amount, n) && NeverUsed(w, session)
      && (end == 0 || w.now <= end + MAX_SESSION_TIME_DRIFT_SECS)
    case CallCreateUsd(_, learner, usd, token, n, oracle) =>
      && 0 < usd <= MAX_FINANCIAL_AMOUNT && oracle.price > 0 && w.now <= oracle.updatedAt + oracle.maxAge
      && Affordable(w, learner, token, usd * 10000000 / oracle.price, n) && NeverUsed(w, USD_SESSION)
    case CallCreatePath(learner, _, send, sendMax, token, amount, n) =>
      && send in w.config.approved && amount <= sendMax <= MAX_FINANCIAL_AMOUNT
      && Affordable(w, learner, token, amount, n) && NeverUsed(w, PATH_SESSION)
    case CallCreateMilestones(_, learner, amounts, token) =>
      && amounts != [] && (forall i :: 0 <= i < |amounts| ==> amounts[i] > 0) && Sum(amounts) <= MAX_FINANCIAL_AMOUNT
      && token in w.config.approved && learner != SELF && Sum(amounts) <= Balance(w.vault.bank, token, learner)
  }

  lemma InternalSucceedsIff(w: World, mentor: Address, learner: Address, amount: int, session: Symbol, token: Address, sessionEnd: nat,
                            usd: int, quoted: int, send: Address, dest: Address, n: nat)
    requires EscrowIndex.SessionsOk(w)
    ensures CreateInternal(w, mentor, learner, amount, session, token, sessionEnd, usd, quoted, send, dest, n).Some? <==>
      && Affordable(w, learner, token, amount, n) && NeverUsed(w, session) && send in w.config.approved && dest in w.config.approved
      && (sessionEnd == 0 || w.now <= sessionEnd + MAX_SESSION_TIME_DRIFT_SECS)
  {
    assert NeverUsed(w, session) <==> session !in w.usedNonces;
  }

  lemma MilestonesSucceedIff(w: World, mentor: Address, learner: Address, amounts: seq<int>, token: Address)
    ensures CreateMilestones(w, mentor, learner, amounts, token).Some? <==> CreationAllowed(w, CallCreateMilestones(mentor, learner, amounts, token))
  {
    if amounts != [] && forall i :: 0 <= i < |amounts| ==> amounts[i] > 0 {
      SumBounds(amounts);
      assert amounts[0] <= Sum(amounts);
    }
  }

  /**
   In every reachable state a creation succeeds if and only if its terms are in range, its tokens approved, the
   learner can pay, a price is positive and fresh, and no escrow has the session id; a learner's deposit, the log
   and the indexes never refuse it.
   */
  lemma CreationSucceedsIff(w: World, calls: seq<Call>, c: Call)
    requires Inv(w) && EscrowIndex.SessionsOk(w) && EscrowIndex.IndexOk(w, EscrowIndex.Mentor, SELF) && Creates(c)
    ensures Attempt(Run(w, calls), c).Some? <==> CreationAllowed(Run(w, calls), c)
  {
    var now := Run(w, calls);
    EscrowIndex.IndexesOnEveryRun(w, calls, EscrowIndex.Mentor, SELF);
    match c
    case CallCreate(mentor, learner, amount, session, token, end, n) =>
      InternalSucceedsIff(now, mentor, learner, amount, session, token, end, 0, amount, token, token, n);
    case CallCreateUsd(mentor, learner, usd, token, n, oracle) =>
      if oracle.price > 0 {
        var amount := usd * 10000000 / oracle.price;
        InternalSucceedsIff(now, mentor, learner, amount, USD_SESSION, token, now.now, usd, amount, token, token, n);
      }
    case CallCreatePath(learner, mentor, send, sendMax, token, amount, n) =>
      InternalSucceedsIff(now, mentor, learner, amount, PATH_SESSION, token, 0, 0, amount, send, token, n);
    case CallCreateMilestones(mentor, learner, amounts, token) => MilestonesSucceedIff(now, mentor, learner, amounts, token);
  }

  // ---------------------------------------------------------------- deposits

  /** One new record with these terms and nothing paid yet; the learner's balance falls by the amount, the contract's rises by it. */
  ghost predicate Deposited(w: World, w': World, mentor: Address, learner: Address, amount: int, token: Address, sessions: nat) {
    var v, v' := w.vault, w'.vault;
    var id := v.escrowCount + 1;
    && v'.escrowCount == id && id in v'.escrows && v'.escrows == v.escrows[id := v'.escrows[id]]
    && (var e := v'.escrows[id];
        && e.mentor == mentor && e.learner == learner && e.token == token && e.status == Active
        && e.amount == e.quoted == amount && e.totalSessions == sessions && e.sessionsDone == 0
        && e.platformFee == 0 && e.netAmount == 0)
    && (forall t, who :: Balance(v'.bank, t, who) - Balance(v.bank, t, who)
          == if t != token then 0 else if who == SELF then amount else if who == learner then -amount else 0)
  }

  lemma CreateDeposits(w: World, mentor: Address, learner: Address, amount: int, session: Symbol, token: Address,
                       sessionEnd: nat, usd: int, send: Address, dest: Address, n: nat)
    requires CreateInternal(w, mentor, learner, amount, session, token, sessionEnd, usd, amount, send, dest, n).Some?
    ensures Deposited(w, CreateInternal(w, mentor, learner, amount, session, token, sessionEnd, usd, amount, send, dest, n).value,
                      mentor, learner, amount, token, n)
  {
    TransferMoves(w.vault.bank, token, learner, SELF, amount);
  }

  /** A plain or path-payment creation deposits the stated amount of its token. */
  lemma CreationTakesTheDeposit(w: World, c: Call)
    requires (c.CallCreate? || c.CallCreatePath?) && Attempt(w, c).Some?
    ensures Deposited(w, Attempt(w, c).value, c.mentor, c.learner, c.amount, c.token, c.sessions)
  {
    match c
    case CallCreate(mentor, learner, amount, session, token, end, n) =>
      CreateDeposits(w, mentor, learner, amount, session, token, end, 0, token, token, n);
    case CallCreatePath(learner, mentor, send, sendMax, token, amount, n) =>
      CreateDeposits(w, mentor, learner, amount, PATH_SESSION, token, 0, 0, send, token, n);
  }

  /** A creation in dollars deposits what the oracle's price makes of them, rounded down by less than one unit. */
  lemma DollarsAreConverted(w: World, mentor: Address, learner: Address, usd: int, token: Address, n: nat, oracle: OracleReading)
    requires CreateEscrowUsd(w, mentor, learner, usd, token, n, oracle).Some?
    ensures var w' := CreateEscrowUsd(w, mentor, learner, usd, token, n, oracle).value;
      && w'.vault.escrowCount in w'.vault.escrows
      && (var amount := w'.vault.escrows[w'.vault.escrowCount].amount;
          && Deposited(w, w', mentor, learner, amount, token, n)
          && oracle.price > 0 && amount * oracle.price <= usd * 10000000 < amount * oracle.price + oracle.price)
  {
    var amount := usd * 10000000 / oracle.price;
    CreateDeposits(w, mentor, learner, amount, USD_SESSION, token, w.now, usd, token, token, n);
    FloorDivision(usd * 10000000, oracle.price);
  }

  lemma FloorDivision(x: nat, d: nat)
    requires d > 0
    ensures x / d * d <= x < x / d * d + d
  {
  }

  // ---------------------------------------------------------------- disputes

  lemma PercentageBounds(amount: nat, pct: nat)
    requires pct <= 100
    ensures var share := amount * pct / 100;
      0 <= share <= amount && 100 * share <= amount * pct < 100 * share + 100 && (pct == 100 ==> share == amount) && (pct == 0 ==> share == 0)
  {
    SplitBounds(amount, pct);
  }

  /**
   A resolution gives the mentor `mentorPct` percent of what is left, rounded down by less than a unit,
   and the learner all the rest: everything at 100, nothing at 0. No fee is taken.
   */
  lemma ResolutionPaysByPercentage(w: World, caller: Address, id: nat, pct: nat, who: Address)
    requires Inv(w) && ResolveDispute(w, caller, id, pct).Some?
    ensures id in w.vault.escrows
    ensures var e := w.vault.escrows[id]; var w' := ResolveDispute(w, caller, id, pct).value;
      && id in w'.vault.escrows
      && (var share := w'.vault.escrows[id].netAmount;
          && 100 * share <= e.amount * pct < 100 * share + 100
          && (pct == 100 ==> share == e.amount) && (pct == 0 ==> share == 0)
          && forall t :: Balance(w'.vault.bank, t, who) - Balance(w.vault.bank, t, who)
               == (if t == e.token && who == e.mentor then share else 0)
                + (if t == e.token && who == e.learner then e.amount - share else 0)
                - (if t == e.token && who == SELF then e.amount else 0))
  {
    var e := w.vault.escrows[id];
    UnpaidCoversSessions(e, 0);
    PercentageBounds(e.amount, pct);
    var share := e.amount * pct / 100;
    SplitReachesTheRightHands(w.vault, id, share, w.now, who);
    ResolveIsSplit(w, caller, id, pct, share);
  }

  lemma ResolveIsSplit(w: World, caller: Address, id: nat, pct: nat, share: int)
    requires ResolveDispute(w, caller, id, pct).Some? && share == w.vault.escrows[id].amount * pct / 100
    ensures SplitEscrow(w.vault, id, share, w.now).Some?
    ensures ResolveDispute(w, caller, id, pct).value.vault == SplitEscrow(w.vault, id, share, w.now).value
  {
  }

  /** In every reachable state a refund returns to the learner exactly the quoted amount less everything paid out before. */
  lemma RefundPaysTheLearner(w: World, calls: seq<Call>, caller: Address, id: nat, who: Address)
    requires Inv(w) && Refund(Run(w, calls), caller, id).Some?
    ensures var now := Run(w, calls); var e := now.vault.escrows[id]; var w' := Refund(now, caller, id).value; var left := e.quoted - Paid(now, id);
      && left >= 0 && Paid(w', id) == e.quoted
      && forall t :: Balance(w'.vault.bank, t, who) - Balance(now.vault.bank, t, who)
           == (if t == e.token && who == e.learner then left else 0) - (if t == e.token && who == SELF then left else 0)
  {
    var now := Run(w, calls);
    var e := now.vault.escrows[id];
    RunKeeps(w, calls);
    assert AccountOk(e, Lookup(now.vault.paid, id, 0));
    TransferMoves(now.vault.bank, e.token, SELF, e.learner, e.amount);
  }

  // ---------------------------------------------------------------- low-fee sessions

  predicate IsLowFeeRelease(w: World, c: Call, pair: (Address, Address)) {
    && c.CallRelease? && Attempt(w, c).Some?
    && c.id in w.vault.escrows && w.vault.escrows[c.id].amount < LOW_FEE_THRESHOLD
    && (w.vault.escrows[c.id].mentor, w.vault.escrows[c.id].learner) == pair
  }

  /** How often `release_funds` released less than the low-fee threshold between a mentor and a learner. */
  function LowFeeReleases(w: World, calls: seq<Call>, pair: (Address, Address)): nat {
    if calls == [] then 0
    else
      LowFeeReleases(w, calls[..|calls| - 1], pair)
        + if IsLowFeeRelease(Run(w, calls[..|calls| - 1]), calls[|calls| - 1], pair) then 1 else 0
  }

  lemma StepCounts(w: World, c: Call, pair: (Address, Address))
    requires Attempt(w, c).Some? && Lookup(w.lowFee, pair, 0) <= MAX_LOW_FEE_SESSIONS_PER_PAIR
    ensures Lookup(Attempt(w, c).value.lowFee, pair, 0) == Lookup(w.lowFee, pair, 0) + (if IsLowFeeRelease(w, c, pair) then 1 else 0)
    ensures Lookup(Attempt(w, c).value.lowFee, pair, 0) <= MAX_LOW_FEE_SESSIONS_PER_PAIR
  {
    if Creates(c) {
      CreatesFrame(w, c);
    } else if Releases(c) {
      ReleaseCounts(w, c, pair);
    } else if Settles(c) {
      SettlesFrame(w, c);
    }
  }

  lemma ReleaseCounts(w: World, c: Call, pair: (Address, Address))
    requires Releases(c) && AttemptRelease(w, c).Some? && Lookup(w.lowFee, pair, 0) <= MAX_LOW_FEE_SESSIONS_PER_PAIR
    ensures var after := Lookup(AttemptRelease(w, c).value.lowFee, pair, 0);
      after == Lookup(w.lowFee, pair, 0) + (if IsLowFeeRelease(w, c, pair) then 1 else 0) && after <= MAX_LOW_FEE_SESSIONS_PER_PAIR
  {
    ReleasesFrame(w, c);
  }

  /** In every run a mentor and a learner get at most five such releases, and the stored counter counts them. */
  lemma {:induction false} LowFeeReleasesOnEveryRun(w: World, calls: seq<Call>, pair: (Address, Address))
    requires w.lowFee == map[]
    ensures LowFeeReleases(w, calls, pair) == Lookup(Run(w, calls).lowFee, pair, 0) <= MAX_LOW_FEE_SESSIONS_PER_PAIR
  {
    if calls != [] {
      var before := Run(w, calls[..|calls| - 1]);
      LowFeeReleasesOnEveryRun(w, calls[..|calls| - 1], pair);
      if Attempt(before, calls[|calls| - 1]).Some? {
        StepCounts(before, calls[|calls| - 1], pair);
      }
    }
  }
}
