/**
 The contract itself: an object whose entry points rewrite its storage step by step. Each entry point
 is proved to commit exactly the storage its specification function prescribes, or nothing at all.
 */
module EscrowContract {
  import opened Options
  import opened Sums
  import opened Ledger
  import opened Lists
  import opened Fees
  import opened M = EscrowModel
  import opened EscrowIndex

  // ---------------------------------------------------------------- loops that only compute

  /** The backoff loop stops early once the cap is certain; the result is the closed form all the same. */
  method CalculateBackoffDelay(attempts: nat) returns (delay: nat)
    ensures delay == Backoff(attempts)
  {
    var rounds := SaturatingSub(attempts, 1);
    var factor, k := 1, 0;
    while k < rounds
      invariant k <= rounds && factor == Pow2(k)
    {
      factor := factor * 2;
      k := k + 1;
      if factor > BACKOFF_CAP / HOUR {
        Pow2Monotone(k, rounds);
        break;
      }
    }
    delay := Min(HOUR * factor, BACKOFF_CAP);
  }

  method IsEmergencySigner(registered: seq<Address>, signer: Address) returns (found: bool)
    ensures found == (signer in registered)
  {
    found := false;
    for i := 0 to |registered|
      invariant found == (signer in registered[..i])
    {
      if registered[i] == signer { found := true; }
    }
    assert registered[..|registered|] == registered;
  }

  method IsValidEmergencyConfig(signers: seq<Address>) returns (ok: bool)
    ensures ok == (|signers| == EMERGENCY_SIGNERS && Distinct(signers))
  {
    if |signers| != EMERGENCY_SIGNERS { return false; }
    for i := 0 to |signers|
      invariant forall a, b :: 0 <= a < i && a < b < |signers| ==> signers[a] != signers[b]
    {
      for j := i + 1 to |signers|
        invariant forall b :: i < b < j ==> signers[i] != signers[b]
      {
        if signers[i] == signers[j] { return false; }
      }
    }
    return true;
  }

  method ValidateEmergencySignatures(registered: seq<Address>, approvals: seq<Address>) returns (ok: bool)
    ensures ok == ValidSignatures(registered, approvals)
  {
    if |approvals| != EMERGENCY_THRESHOLD { return false; }
    for i := 0 to |approvals|
      invariant forall a :: 0 <= a < i ==> approvals[a] in registered
      invariant forall a, b :: 0 <= a < i && a < b < |approvals| ==> approvals[a] != approvals[b]
    {
      var known := IsEmergencySigner(registered, approvals[i]);
      if !known { return false; }
      for j := i + 1 to |approvals|
        invariant forall b :: i < b < j ==> approvals[i] != approvals[b]
      {
        if approvals[i] == approvals[j] { return false; }
      }
    }
    return true;
  }

  /** Each amount is checked on its own before the total is folded. */
  method CheckMilestones(amounts: seq<int>) returns (ok: bool, total: int)
    ensures ok == ((forall i :: 0 <= i < |amounts| ==> 0 < amounts[i] <= MAX_FINANCIAL_AMOUNT) && 0 < Sum(amounts) <= MAX_FINANCIAL_AMOUNT)
    ensures ok ==> total == Sum(amounts)
  {
    total := 0;
    for i := 0 to |amounts|
      invariant forall k :: 0 <= k < i ==> 0 < amounts[k] <= MAX_FINANCIAL_AMOUNT
    {
      if !(0 < amounts[i] <= MAX_FINANCIAL_AMOUNT) { return false, 0; }
    }
    for i := 0 to |amounts|
      invariant total == Sum(amounts[..i])
    {
      total := total + amounts[i];
      assert amounts[..i + 1] == amounts[..i] + [amounts[i]];
      SumAppend(amounts[..i], amounts[i]);
    }
    assert amounts[..|amounts|] == amounts;
    ok := 0 < total <= MAX_FINANCIAL_AMOUNT;
  }

  method AreAllCompleted(statuses: seq<MilestoneStatus>) returns (all: bool)
    ensures all == AllCompleted(statuses)
  {
    for i := 0 to |statuses|
      invariant forall k :: 0 <= k < i ==> statuses[k] == MsCompleted
    {
      if statuses[i] != MsCompleted { return false; }
    }
    return true;
  }

  method AllPending(n: nat) returns (statuses: seq<MilestoneStatus>)
    ensures statuses == seq(n, _ => MsPending)
  {
    statuses := [];
    for i := 0 to n
      invariant statuses == seq(i, _ => MsPending)
    {
      statuses := statuses + [MsPending];
    }
  }

  // ---------------------------------------------------------------- the object

  class Contract {
    var now: nat
    var config: Config
    var bank: Bank
    var escrowCount: nat
    var escrows: map<nat, Escrow>
    var milestoneCount: nat
    var milestones: map<nat, MilestoneEscrow>
    var usedNonces: set<Symbol>
    var openSessions: set<Symbol>
    var byMentor: map<Address, seq<nat>>
    var byLearner: map<Address, seq<nat>>
    var log: map<nat, seq<Transition>>
    var isolated: set<nat>
    var lowFee: map<(Address, Address), nat>
    var failures: map<nat, Failure>
    var emergency: Emergency
    ghost var surplus: map<Address, int>
    ghost var paid: map<nat, int>
    ghost var msPaid: map<(nat, nat), int>

    ghost function Money(): Vault
      reads this
    {
      Vault(bank, escrowCount, escrows, milestoneCount, milestones, surplus, paid, msPaid)
    }

    ghost function View(): World
      reads this
    {
      World(now, config, Money(), usedNonces, openSessions, byMentor, byLearner, log, isolated, lowFee, failures, emergency)
    }

    /** The same for the steps that only move money. */
    ghost predicate Moves(ok: bool, before: Vault, spec: Option<Vault>)
      reads this
    {
      ok == spec.Some? && Money() == spec.GetOr(before)
    }

    /** The call committed exactly what the specification says, or panicked and left the storage alone. */
    ghost predicate Commits(ok: bool, before: World, spec: Option<World>)
      reads this
    {
      ok == spec.Some? && View() == spec.GetOr(before)
    }

    constructor (ledgerTime: nat, ledger: Bank, admin: Address, treasury: Address, feeBps: nat, approved: set<Address>, autoReleaseDelay: nat)
      requires feeBps <= MAX_FEE_BPS
      ensures Genesis(ledgerTime, ledger, admin, treasury, feeBps, approved, autoReleaseDelay) == Some(View())
    {
      now := ledgerTime;
      config := Config(admin, treasury, FeeConfig(feeBps, None, true),
                       if autoReleaseDelay == 0 then 72 * HOUR else autoReleaseDelay, approved, None, None);
      bank := ledger;
      escrowCount, escrows, milestoneCount, milestones := 0, map[], 0, map[];
      usedNonces, openSessions, byMentor, byLearner, log := {}, {}, map[], map[], map[];
      isolated, lowFee, failures, emergency := {}, map[], map[], Emergency(0, map[], {}, {}, None);
      surplus := map t | t in (set k <- ledger.Keys :: k.0) :: Balance(ledger, t, SELF);
      paid, msPaid := map[], map[];
    }

    // -------------------------------------------------------------- shared steps

    method Move(token: Address, from: Address, to: Address, amount: int) returns (ok: bool)
      modifies this`bank
      ensures ok == Transfer(old(bank), token, from, to, amount).Some?
      ensures bank == Transfer(old(bank), token, from, to, amount).GetOr(old(bank))
    {
      if amount < 0 || amount > Balance(bank, token, from) { return false; }
      bank := bank[(token, from) := Balance(bank, token, from) - amount];
      bank := bank[(token, to) := Balance(bank, token, to) + amount];
      return true;
    }

    method TransitionStatus(id: nat, from: Status, to: Status, actor: Address) returns (ok: bool)
      modifies this`log
      ensures ok == LogTransition(old(log), id, from, to, actor, now).Some?
      ensures log == LogTransition(old(log), id, from, to, actor, now).GetOr(old(log))
    {
      if !ValidEdge(from, to) { return false; }
      log := log[id := Lookup(log, id, []) + [Transition(from, to, actor, now)]];
      return true;
    }

    /** Fee to the treasury, net to the mentor; a trap in the second transfer undoes the first. */
    method PayOutTokens(token: Address, mentor: Address, gross: int, fee: int) returns (ok: bool)
      modifies this`bank
      ensures ok == PaySplit(old(bank), token, config.treasury, mentor, gross, fee).Some?
      ensures bank == PaySplit(old(bank), token, config.treasury, mentor, gross, fee).GetOr(old(bank))
    {
      var held := bank;
      ok := true;
      if fee > 0 {
        ok := Move(token, SELF, config.treasury, fee);
      }
      if ok {
        ok := Move(token, SELF, mentor, gross - fee);
      }
      if !ok { bank := held; }
    }

    method PayRecord(id: nat, gross: int, fee: int, sessions: nat, closes: bool) returns (ok: bool)
      requires id in escrows
      modifies this`bank, this`escrows, this`surplus, this`paid
      ensures Moves(ok, old(Money()), PayEscrow(old(Money()), config.treasury, id, gross, fee, sessions, closes))
    {
      var e := escrows[id];
      ok := PayOutTokens(e.token, e.mentor, gross, fee);
      if !ok { return; }
      escrows := escrows[id := e.(amount := e.amount - gross, platformFee := e.platformFee + fee,
                                  netAmount := e.netAmount + gross - fee, sessionsDone := e.sessionsDone + sessions,
                                  status := if closes then Released else e.status)];
      surplus := Credit(surplus, e.token, Retained(config.treasury, e.mentor, gross, fee));
      paid := Credit(paid, id, gross);
    }

    /** The tail of every release: pay, rewrite the record, and log the last one. */
    method Pay(id: nat, gross: int, fee: int, sessions: nat, closes: bool, actor: Address) returns (ok: bool)
      requires id in escrows
      modifies this
      ensures Commits(ok, old(View()), PayOut(old(View()), id, gross, fee, sessions, closes, actor))
    {
      if closes && !ValidEdge(escrows[id].status, Released) { return false; }
      var from := escrows[id].status;
      ghost var w := View();
      ok := PayRecord(id, gross, fee, sessions, closes);
      if ok {
        assert View() == w.(vault := PayEscrow(w.vault, config.treasury, id, gross, fee, sessions, closes).value);
        if closes {
          ok := TransitionStatus(id, from, Released, actor);
        }
      }
    }

    method DoRelease(id: nat, q: Quote, actor: Address) returns (ok: bool)
      requires id in escrows
      modifies this
      ensures Commits(ok, old(View()), ReleaseRest(old(View()), id, q, actor))
    {
      var releaseAmount := escrows[id].amount;
      ok := Pay(id, releaseAmount, UnifiedFee(config.fees, q, releaseAmount), 0, true, actor);
    }

    method DoReleaseSimple(id: nat, actor: Address) returns (ok: bool)
      requires id in escrows
      modifies this
      ensures Commits(ok, old(View()), ReleaseRestSimple(old(View()), id, actor))
    {
      var releaseAmount := escrows[id].amount;
      ok := Pay(id, releaseAmount, FlatFee(config.fees.feeBps, releaseAmount), 0, true, actor);
    }

    // -------------------------------------------------------------- creation

    method OpenRecord(e: Escrow) returns (ok: bool)
      modifies this`bank, this`escrowCount, this`escrows
      ensures Moves(ok, old(Money()), OpenEscrow(old(Money()), e))
    {
      ok := Move(e.token, e.learner, SELF, e.amount);
      if !ok { return; }
      escrowCount := escrowCount + 1;
      escrows := escrows[escrowCount := e];
    }

    method MayCreate(learner: Address, amount: int, session: Symbol, token: Address, sessionEnd: nat,
                     sendAsset: Address, destAsset: Address, totalSessions: nat) returns (may: bool)
      ensures may == Creatable(View(), learner, amount, session, token, sessionEnd, sendAsset, destAsset, totalSessions)
    {
      if !(0 < amount <= MAX_FINANCIAL_AMOUNT && totalSessions > 0 && amount >= totalSessions) { return false; }
      if token !in config.approved { return false; }
      if sendAsset != token && sendAsset !in config.approved { return false; }
      if destAsset != token && destAsset !in config.approved { return false; }
      if learner == SELF || Balance(bank, token, learner) < amount { return false; }
      if session in usedNonces { return false; }
      if sessionEnd > 0 && now > sessionEnd && now - sessionEnd > MAX_SESSION_TIME_DRIFT_SECS { return false; }
      return session !in openSessions;
    }

    method Register(e: Escrow)
      modifies this`usedNonces, this`openSessions, this`byMentor, this`byLearner
      ensures View() == Registered(old(View()), e)
    {
      usedNonces := usedNonces + {e.sessionId};
      openSessions := openSessions + {e.sessionId};
      byMentor := byMentor[e.mentor := Lookup(byMentor, e.mentor, []) + [e.id]];
      byLearner := byLearner[e.learner := Lookup(byLearner, e.learner, []) + [e.id]];
    }

    method Open(e: Escrow) returns (ok: bool)
      modifies this`bank, this`escrowCount, this`escrows, this`log
      ensures Commits(ok, old(View()), Opened(old(View()), e))
      ensures escrowCount == old(escrowCount) + if ok then 1 else 0
    {
      ghost var w := View();
      ok := OpenRecord(e);
      if !ok { return; }
      assert View() == w.(vault := OpenEscrow(w.vault, e).value);
      ok := TransitionStatus(e.id, Pending, Active, e.learner);
    }

    method Store(e: Escrow) returns (ok: bool)
      modifies this
      ensures Commits(ok, old(View()), StoreEscrow(old(View()), e))
      ensures escrowCount == old(escrowCount) + if ok then 1 else 0
    {
      ok := Open(e);
      if ok {
        Register(e);
      }
    }

    method CreateEscrowInternal(mentor: Address, learner: Address, amount: int, session: Symbol, token: Address,
                                sessionEnd: nat, usdAmount: int, quoted: int, sendAsset: Address, destAsset: Address,
                                totalSessions: nat) returns (ok: bool, id: nat)
      modifies this
      ensures Commits(ok, old(View()), CreateInternal(old(View()), mentor, learner, amount, session, token, sessionEnd, usdAmount, quoted,
                                                      sendAsset, destAsset, totalSessions))
      ensures ok ==> id == escrowCount == old(escrowCount) + 1
    {
      id := escrowCount + 1;
      ok := MayCreate(learner, amount, session, token, sessionEnd, sendAsset, destAsset, totalSessions);
      if !ok { return; }
      ok := Store(Escrow(id, mentor, learner, amount, session, Active, now, token, 0, 0, sessionEnd,
                         config.autoReleaseDelay, "", 0, usdAmount, quoted, sendAsset, destAsset, totalSessions, 0));
    }

    method CreateEscrow(mentor: Address, learner: Address, amount: int, session: Symbol, token: Address,
                        sessionEnd: nat, totalSessions: nat) returns (ok: bool, id: nat)
      modifies this
      ensures Commits(ok, old(View()), M.CreateEscrow(old(View()), mentor, learner, amount, session, token, sessionEnd, totalSessions))
      ensures ok ==> id == escrowCount == old(escrowCount) + 1
    {
      ok, id := CreateEscrowInternal(mentor, learner, amount, session, token, sessionEnd, 0, amount, token, token, totalSessions);
    }

    method CreateEscrowUsd(mentor: Address, learner: Address, usd: int, token: Address, totalSessions: nat, oracle: OracleReading)
      returns (ok: bool, id: nat)
      modifies this
      ensures Commits(ok, old(View()), M.CreateEscrowUsd(old(View()), mentor, learner, usd, token, totalSessions, oracle))
      ensures ok ==> id == escrowCount == old(escrowCount) + 1
    {
      ok, id := false, 0;
      if !(0 < usd <= MAX_FINANCIAL_AMOUNT) { return; }
      if SaturatingSub(now, oracle.updatedAt) > oracle.maxAge || oracle.price <= 0 { return; }
      var amount := usd * 10000000 / oracle.price;
      ok, id := CreateEscrowInternal(mentor, learner, amount, USD_SESSION, token, now, usd, amount, token, token, totalSessions);
    }

    method CreateEscrowPathPayment(learner: Address, mentor: Address, sendAsset: Address, sendMax: int, destAsset: Address,
                                   destAmount: int, totalSessions: nat) returns (ok: bool, id: nat)
      modifies this
      ensures Commits(ok, old(View()), CreatePathPayment(old(View()), learner, mentor, sendAsset, sendMax, destAsset, destAmount, totalSessions))
      ensures ok ==> id == escrowCount == old(escrowCount) + 1
    {
      ok, id := false, 0;
      if sendAsset !in config.approved || destAsset !in config.approved { return; }
      if !(0 < destAmount <= MAX_FINANCIAL_AMOUNT && 0 < sendMax <= MAX_FINANCIAL_AMOUNT) { return; }
      if sendMax < destAmount { return; }
      ok, id := CreateEscrowInternal(mentor, learner, destAmount, PATH_SESSION, destAsset, 0, 0, destAmount, sendAsset, destAsset, totalSessions);
    }

    // -------------------------------------------------------------- releases

    method ReleaseFunds(caller: Address, id: nat, q: Quote) returns (ok: bool)
      modifies this
      ensures Commits(ok, old(View()), M.ReleaseFunds(old(View()), caller, id, q))
    {
      if id !in escrows || escrows[id].status != Active || id in isolated { return false; }
      var e := escrows[id];
      if caller != e.learner && caller != config.admin { return false; }
      if InteractionMinutes(e) < REQUIRED_INTERACTION_MINUTES { return false; }
      var pair := (e.mentor, e.learner);
      var count := Lookup(lowFee, pair, 0);
      if e.amount < LOW_FEE_THRESHOLD { count := count + 1; }
      if count > MAX_LOW_FEE_SESSIONS_PER_PAIR { return false; }
      var held := lowFee;
      ghost var w := View();
      lowFee := lowFee[pair := count];
      assert View() == w.(lowFee := w.lowFee[(e.mentor, e.learner) := LowFeeCount(w, e)]);
      ok := DoRelease(id, q, caller);
      if !ok { lowFee := held; }
    }

    method ReleasePartial(caller: Address, id: nat, q: Quote) returns (ok: bool)
      modifies this
      ensures Commits(ok, old(View()), M.ReleasePartial(old(View()), caller, id, q))
    {
      if id !in escrows || escrows[id].status != Active { return false; }
      var e := escrows[id];
      if e.sessionsDone >= e.totalSessions { return false; }
      if caller != e.learner && caller != config.admin { return false; }
      var closes := e.sessionsDone + 1 == e.totalSessions;
      var gross := if closes then e.amount else e.quoted / e.totalSessions;
      ok := Pay(id, gross, UnifiedFee(config.fees, q, gross), 1, closes, caller);
      if ok && closes {
        openSessions := openSessions - {e.sessionId};
      }
    }

    method BatchRelease(caller: Address, id: nat, n: nat, q: Quote) returns (ok: bool)
      modifies this
      ensures Commits(ok, old(View()), M.BatchRelease(old(View()), caller, id, n, q))
    {
      if id !in escrows || caller != config.admin || escrows[id].status != Active { return false; }
      var e := escrows[id];
      if n == 0 || e.sessionsDone + n > e.totalSessions { return false; }
      var perSession := e.quoted / e.totalSessions;
      var closes := e.sessionsDone + n == e.totalSessions;
      var gross := if closes then e.amount else perSession * n;
      ok := Pay(id, gross, UnifiedFee(config.fees, q, gross), n, closes, caller);
      if ok && closes {
        openSessions := openSessions - {e.sessionId};
      }
    }

    method AdminRelease(caller: Address, id: nat, q: Quote) returns (ok: bool)
      modifies this
      ensures Commits(ok, old(View()), M.AdminRelease(old(View()), caller, id, q))
    {
      if id !in escrows || escrows[id].status != Active || caller != config.admin { return false; }
      ok := DoRelease(id, q, caller);
    }

    // -------------------------------------------------------------- auto-release and recovery

    /** A refused precheck is not a panic: the failure record has to survive. */
    method TryAutoRelease(id: nat, prechecksOk: bool, q: Quote) returns (ok: bool)
      modifies this
      ensures Commits(ok, old(View()), M.TryAutoRelease(old(View()), id, prechecksOk, q))
    {
      if id !in escrows || escrows[id].status != Active { return false; }
      if now < escrows[id].sessionEnd + escrows[id].autoReleaseDelay { return false; }
      var failure := Lookup(failures, id, FRESH_FAILURE);
      if failure.attempts >= MAX_AUTO_RELEASE_ATTEMPTS { return false; }
      if now < failure.nextRetry { return false; }
      if !prechecksOk {
        failure := failure.(attempts := failure.attempts + 1);
        failure := failure.(lastFailure := now);
        var delay := CalculateBackoffDelay(failure.attempts);
        failure := failure.(nextRetry := now + delay);
        failure := failure.(recovery := if failure.attempts >= MAX_AUTO_RELEASE_ATTEMPTS then AwaitingManualRecovery else Retrying);
        failures := failures[id := failure];
        return true;
      }
      ok := DoRelease(id, q, SELF);
      if ok {
        failures := failures - {id};
      }
    }

    method ManualRecoveryRelease(caller: Address, id: nat) returns (ok: bool)
      modifies this
      ensures Commits(ok, old(View()), ManualRecovery(old(View()), caller, id))
    {
      if caller != config.admin || id !in failures { return false; }
      var failure := failures[id];
      if failure.attempts < MANUAL_RECOVERY_THRESHOLD || failure.attempts >= MAX_AUTO_RELEASE_ATTEMPTS { return false; }
      if id !in escrows || escrows[id].status != Active { return false; }
      ok := DoReleaseSimple(id, caller);
      if ok {
        failures := failures[id := failure.(recovery := Recovered, manualAt := now)];
      }
    }

    // -------------------------------------------------------------- disputes and refunds

    method Dispute(caller: Address, id: nat, reason: Symbol) returns (ok: bool)
      modifies this
      ensures Commits(ok, old(View()), M.Dispute(old(View()), caller, id, reason))
    {
      if id !in escrows || escrows[id].status != Active { return false; }
      var e := escrows[id];
      if caller != e.mentor && caller != e.learner { return false; }
      ok := TransitionStatus(id, e.status, Disputed, caller);
      if ok {
        escrows := escrows[id := e.(status := Disputed, disputeReason := reason)];
      }
    }

    /** Either share may be empty; a trap in the second transfer undoes the first. */
    method SplitTokens(token: Address, mentor: Address, learner: Address, mentorAmount: int, learnerAmount: int) returns (ok: bool)
      modifies this`bank
      ensures ok == SplitBank(old(bank), token, mentor, learner, mentorAmount, learnerAmount).Some?
      ensures bank == SplitBank(old(bank), token, mentor, learner, mentorAmount, learnerAmount).GetOr(old(bank))
    {
      var held := bank;
      ok := true;
      if mentorAmount > 0 {
        ok := Move(token, SELF, mentor, mentorAmount);
      }
      if ok && learnerAmount > 0 {
        ok := Move(token, SELF, learner, learnerAmount);
      }
      if !ok { bank := held; }
    }

    method SplitRecord(id: nat, mentorAmount: int) returns (ok: bool)
      requires id in escrows
      modifies this`bank, this`escrows, this`surplus, this`paid
      ensures Moves(ok, old(Money()), SplitEscrow(old(Money()), id, mentorAmount, now))
    {
      var e := escrows[id];
      var learnerAmount := e.amount - mentorAmount;
      ok := SplitTokens(e.token, e.mentor, e.learner, mentorAmount, learnerAmount);
      if !ok { return; }
      escrows := escrows[id := e.(status := Resolved, netAmount := mentorAmount, platformFee := learnerAmount, resolvedAt := now)];
      surplus := Credit(surplus, e.token, (if e.mentor == SELF then mentorAmount else 0) + (if e.learner == SELF then learnerAmount else 0));
      paid := Credit(paid, id, e.amount);
    }

    method ResolveDispute(caller: Address, id: nat, mentorPct: nat) returns (ok: bool)
      modifies this
      ensures Commits(ok, old(View()), M.ResolveDispute(old(View()), caller, id, mentorPct))
    {
      if caller != config.admin || mentorPct > 100 || id in isolated { return false; }
      if id !in escrows || escrows[id].status != Disputed { return false; }
      var e := escrows[id];
      ok := SplitAndLog(id, e.amount * mentorPct / 100, caller);
    }

    method SplitAndLog(id: nat, mentorAmount: int, actor: Address) returns (ok: bool)
      requires id in escrows && escrows[id].status == Disputed
      modifies this
      ensures Commits(ok, old(View()), SplitOpen(old(View()), id, mentorAmount, actor))
    {
      ghost var w := View();
      ok := SplitRecord(id, mentorAmount);
      if ok {
        assert View() == w.(vault := SplitEscrow(w.vault, id, mentorAmount, now).value);
        ok := TransitionStatus(id, Disputed, Resolved, actor);
      }
    }

    method RefundRecord(id: nat) returns (ok: bool)
      requires id in escrows
      modifies this`bank, this`escrows, this`surplus, this`paid
      ensures Moves(ok, old(Money()), RefundEscrow(old(Money()), id))
    {
      var e := escrows[id];
      ok := Move(e.token, SELF, e.learner, e.amount);
      if !ok { return; }
      escrows := escrows[id := e.(status := Refunded)];
      surplus := Credit(surplus, e.token, if e.learner == SELF then e.amount else 0);
      paid := Credit(paid, id, e.amount);
    }

    method Refund(caller: Address, id: nat) returns (ok: bool)
      modifies this
      ensures Commits(ok, old(View()), M.Refund(old(View()), caller, id))
    {
      if caller != config.admin || id !in escrows { return false; }
      var e := escrows[id];
      if e.status == Released || e.status == Refunded || e.status == Resolved { return false; }
      if !ValidEdge(e.status, Refunded) { return false; }
      ghost var w := View();
      ok := RefundRecord(id);
      if ok {
        assert View() == w.(vault := RefundEscrow(w.vault, id).value);
        ok := TransitionStatus(id, e.status, Refunded, caller);
      }
    }

    method SetIsolation(caller: Address, id: nat, on: bool) returns (ok: bool)
      modifies this
      ensures Commits(ok, old(View()), if on then Isolate(old(View()), caller, id) else LiftIsolation(old(View()), caller, id))
    {
      if caller != config.admin { return false; }
      isolated := if on then isolated + {id} else isolated - {id};
      return true;
    }

    // -------------------------------------------------------------- emergency release

    method ProposeEmergencyAction(proposer: Address, id: nat, reason: Symbol) returns (ok: bool)
      modifies this
      ensures Commits(ok, old(View()), ProposeEmergency(old(View()), proposer, id, reason))
    {
      if config.emergencySigners.None? { return false; }
      var known := IsEmergencySigner(config.emergencySigners.value, proposer);
      if !known || id !in failures || failures[id].attempts < MAX_AUTO_RELEASE_ATTEMPTS { return false; }
      if id !in escrows || escrows[id].status != Active { return false; }
      var params := Params(id, escrows[id].amount, reason);
      if params in emergency.failedParams { return false; }
      var aid := emergency.count + 1;
      var action := EmergencyAction(params, proposer, now, now + EMERGENCY_TIMELOCK_SECS, 1, [proposer], false, false);
      emergency := emergency.(count := aid, actions := emergency.actions[aid := action], approvals := emergency.approvals + {(aid, proposer)});
      return true;
    }

    method ApproveEmergencyAction(signer: Address, aid: nat) returns (ok: bool)
      modifies this
      ensures Commits(ok, old(View()), ApproveEmergency(old(View()), signer, aid))
    {
      if config.emergencySigners.None? { return false; }
      var known := IsEmergencySigner(config.emergencySigners.value, signer);
      if !known || aid !in emergency.actions { return false; }
      var action := emergency.actions[aid];
      if action.executed || action.failed || (aid, signer) in emergency.approvals { return false; }
      if action.approvalCount >= EMERGENCY_THRESHOLD { return false; }
      var present := IsEmergencySigner(action.signers, signer);
      if !present {
        action := action.(signers := action.signers + [signer]);
      }
      action := action.(approvalCount := |action.signers|);
      emergency := emergency.(actions := emergency.actions[aid := action], approvals := emergency.approvals + {(aid, signer)});
      return true;
    }

    /** The circuit breaker's pool, escrow by escrow. */
    method ActivePoolTotal() returns (total: int)
      ensures total == ActivePool(escrows, escrowCount)
    {
      total := 0;
      var i := 1;
      while i <= escrowCount
        invariant 1 <= i <= escrowCount + 1
        invariant total == SumTo(ActiveAmounts(escrows), i - 1)
      {
        if i in escrows && escrows[i].status == Active && escrows[i].amount > 0 {
          total := total + escrows[i].amount;
        }
        i := i + 1;
      }
    }

    /** The checks of an execution, in order; each refusal is recorded by the caller. */
    method Admit(caller: Address, a: EmergencyAction) returns (circuit: Option<Circuit>)
      ensures circuit == EmergencyAdmitted(View(), caller, a)
    {
      circuit := None;
      if config.emergencySigners.None? { return; }
      var valid := ValidateEmergencySignatures(config.emergencySigners.value, a.signers);
      if !valid || now < a.executeAfter { return; }
      if config.emergencyAdmin.None? { return; }
      var role := config.emergencyAdmin.value;
      if role.admin != caller || now >= role.expiresAt { return; }
      var pool := ActivePoolTotal();
      var open := emergency.circuit.GetOr(Circuit(now, 0));
      if SaturatingSub(now, open.windowStart) >= EMERGENCY_CIRCUIT_WINDOW_SECS {
        open := Circuit(now, 0);
      }
      if open.released + a.params.amount > MaxReleasable(pool) { return; }
      var id := a.params.escrowId;
      if id !in escrows || escrows[id].status != Active || escrows[id].amount != a.params.amount { return; }
      circuit := Some(open.(released := open.released + a.params.amount));
    }

    method ExecuteEmergencyAction(caller: Address, aid: nat) returns (ok: bool, released: bool)
      modifies this
      ensures ok == ExecuteEmergency(old(View()), caller, aid).Some?
      ensures ok ==> (View(), released) == ExecuteEmergency(old(View()), caller, aid).value
      ensures !ok ==> View() == old(View())
    {
      ok, released := false, false;
      if aid !in emergency.actions { return; }
      var action := emergency.actions[aid];
      if action.executed || action.failed || action.params in emergency.failedParams { return; }
      if config.emergencySigners.None? { return; }
      var circuit := Admit(caller, action);
      if circuit.None? {
        emergency := emergency.(actions := emergency.actions[aid := action.(failed := true)],
                                failedParams := emergency.failedParams + {action.params});
        return true, false;
      }
      ok := ReleaseInEmergency(aid, circuit, caller);
      released := ok;
    }

    method ReleaseInEmergency(aid: nat, circuit: Option<Circuit>, caller: Address) returns (ok: bool)
      requires aid in emergency.actions && emergency.actions[aid].params.escrowId in escrows
      modifies this
      ensures Commits(ok, old(View()), EmergencyRelease(old(View()), aid, circuit, caller))
    {
      var action := emergency.actions[aid];
      ok := DoReleaseSimple(action.params.escrowId, caller);
      if ok {
        emergency := emergency.(actions := emergency.actions[aid := action.(executed := true)], circuit := circuit);
        failures := failures - {action.params.escrowId};
      }
    }

    // -------------------------------------------------------------- milestone escrows

    method OpenMilestoneRecord(m: MilestoneEscrow) returns (ok: bool)
      modifies this`bank, this`milestoneCount, this`milestones
      ensures Moves(ok, old(Money()), OpenMilestones(old(Money()), m))
    {
      ok := Move(m.token, m.learner, SELF, m.total);
      if !ok { return; }
      milestoneCount := milestoneCount + 1;
      milestones := milestones[milestoneCount := m];
    }

    method StoreMilestoneEscrow(m: MilestoneEscrow) returns (ok: bool)
      modifies this
      ensures Commits(ok, old(View()), StoreMilestones(old(View()), m))
      ensures milestoneCount == old(milestoneCount) + if ok then 1 else 0
    {
      ghost var w := View();
      ok := OpenMilestoneRecord(m);
      if !ok { return; }
      assert View() == w.(vault := OpenMilestones(w.vault, m).value);
      ok := TransitionStatus(m.id, Pending, Active, m.learner);
    }

    method CreateMilestoneEscrow(mentor: Address, learner: Address, amounts: seq<int>, token: Address) returns (ok: bool, id: nat)
      modifies this
      ensures Commits(ok, old(View()), CreateMilestones(old(View()), mentor, learner, amounts, token))
      ensures ok ==> id == milestoneCount == old(milestoneCount) + 1
    {
      ok, id := false, 0;
      if amounts == [] || token !in config.approved { return; }
      var valid, total := CheckMilestones(amounts);
      if !valid || learner == SELF || Balance(bank, token, learner) < total { return; }
      id := milestoneCount + 1;
      var statuses := AllPending(|amounts|);
      ok := StoreMilestoneEscrow(MilestoneEscrow(id, mentor, learner, total, amounts, statuses, Active, now, token, 0, 0));
    }

    method IsMilestoneOpen(id: nat, index: nat) returns (open: bool)
      ensures open == MilestoneOpen(Money(), id, index)
    {
      if id !in milestones || milestones[id].status != Active { return false; }
      var m := milestones[id];
      if index >= |m.amounts| || index >= |m.statuses| { return false; }
      return m.statuses[index] == MsPending;
    }

    method PayMilestoneRecord(id: nat, index: nat, fee: int) returns (ok: bool, all: bool)
      requires MilestoneOpen(Money(), id, index)
      modifies this`bank, this`milestones, this`surplus, this`msPaid
      ensures Moves(ok, old(Money()), PayMilestone(old(Money()), config.treasury, id, index, fee))
      ensures ok ==> all == AllCompleted(old(milestones)[id].statuses[index := MsCompleted])
    {
      var m := milestones[id];
      var gross := m.amounts[index];
      all := false;
      ok := PayOutTokens(m.token, m.mentor, gross, fee);
      if !ok { return; }
      m := m.(statuses := m.statuses[index := MsCompleted], platformFee := m.platformFee + fee, netAmount := m.netAmount + gross - fee);
      all := AreAllCompleted(m.statuses);
      if all {
        m := m.(status := Released);
      }
      milestones := milestones[id := m];
      surplus := Credit(surplus, m.token, Retained(config.treasury, m.mentor, gross, fee));
      msPaid := Credit(msPaid, (id, index), gross);
    }

    method CompleteMilestone(caller: Address, id: nat, index: nat, q: Quote) returns (ok: bool)
      modifies this
      ensures Commits(ok, old(View()), M.CompleteMilestone(old(View()), caller, id, index, q))
    {
      ok := IsMilestoneOpen(id, index);
      if !ok || caller != milestones[id].learner { return false; }
      ok := CompleteAndLog(id, index, UnifiedFee(config.fees, q, milestones[id].amounts[index]));
    }

    method CompleteAndLog(id: nat, index: nat, fee: int) returns (ok: bool)
      requires MilestoneOpen(Money(), id, index)
      modifies this
      ensures Commits(ok, old(View()), CompleteOpen(old(View()), id, index, fee))
    {
      var m := milestones[id];
      ghost var w := View();
      var all;
      ok, all := PayMilestoneRecord(id, index, fee);
      if ok {
        assert View() == w.(vault := PayMilestone(w.vault, config.treasury, id, index, fee).value);
        if all {
          ok := TransitionStatus(id, m.status, Released, m.learner);
        }
      }
    }

    method DisputeMilestone(signers: set<Address>, id: nat, index: nat) returns (ok: bool)
      modifies this
      ensures Commits(ok, old(View()), M.DisputeMilestone(old(View()), signers, id, index))
    {
      ok := IsMilestoneOpen(id, index);
      if !ok { return; }
      var m := milestones[id];
      if m.mentor !in signers || m.learner !in signers { return false; }
      ok := TransitionStatus(id, m.status, Disputed, m.learner);
      milestones := milestones[id := m.(statuses := m.statuses[index := MsDisputed], status := Disputed)];
    }

    // -------------------------------------------------------------- configuration and the environment

    method UpdateFee(caller: Address, bps: nat) returns (ok: bool)
      modifies this
      ensures Commits(ok, old(View()), M.UpdateFee(old(View()), caller, bps))
    {
      if caller != config.admin || bps > MAX_FEE_BPS { return false; }
      config := config.(fees := config.fees.(feeBps := bps));
      return true;
    }

    method SetFeeSchedule(caller: Address, s: FeeSchedule) returns (ok: bool)
      modifies this
      ensures Commits(ok, old(View()), M.SetFeeSchedule(old(View()), caller, s))
    {
      if caller != config.admin || !ValidSchedule(s) { return false; }
      config := config.(fees := config.fees.(schedule := Some(s)));
      return true;
    }

    method SetEmergencySigners(caller: Address, signers: seq<Address>) returns (ok: bool)
      modifies this
      ensures Commits(ok, old(View()), M.SetEmergencySigners(old(View()), caller, signers))
    {
      if caller != config.admin { return false; }
      var valid := IsValidEmergencyConfig(signers);
      if !valid { return false; }
      config := config.(emergencySigners := Some(signers));
      return true;
    }

    method GrantEmergencyAdmin(caller: Address, who: Address) returns (ok: bool)
      modifies this
      ensures Commits(ok, old(View()), M.GrantEmergencyAdmin(old(View()), caller, who))
    {
      if caller != config.admin { return false; }
      config := config.(emergencyAdmin := Some(EmergencyRole(who, now + EMERGENCY_ADMIN_TTL_SECS)));
      return true;
    }

    // -------------------------------------------------------------- paging

    /** One page of an index, record by record; a page offset beyond 32 bits aborts. */
    method ReadPage(ids: seq<nat>, page: nat, size: nat) returns (shown: Option<seq<Escrow>>)
      ensures shown == Page(escrows, ids, page, size)
    {
      var pageSize := if size > MAX_PAGE_SIZE then MAX_PAGE_SIZE else size;
      var start := page * pageSize;
      if start > U32_MAX { return None; }
      if start >= |ids| { return Some([]); }
      var end := Min(start + pageSize, |ids|);
      var result := [];
      for i := start to end
        invariant result == Records(escrows, ids[start..i])
      {
        if ids[i] in escrows {
          result := result + [escrows[ids[i]]];
        }
        assert ids[start..i + 1][..i - start] == ids[start..i];
      }
      return Some(result);
    }

    method GetEscrowsByMentor(mentor: Address, page: nat, size: nat) returns (shown: Option<seq<Escrow>>)
      ensures shown == Page(escrows, Lookup(byMentor, mentor, []), page, size)
    {
      shown := ReadPage(Lookup(byMentor, mentor, []), page, size);
    }

    method GetEscrowsByLearner(learner: Address, page: nat, size: nat) returns (shown: Option<seq<Escrow>>)
      ensures shown == Page(escrows, Lookup(byLearner, learner, []), page, size)
    {
      shown := ReadPage(Lookup(byLearner, learner, []), page, size);
    }
  }
}
