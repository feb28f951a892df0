/** Which parts of the storage each group of entry points leaves alone. */
module EscrowFrames {
  import opened Options
  import opened Ledger
  import opened Fees
  import opened EscrowModel

  /** Nothing is created: the counter, the indexes and the spent session ids stay as they were. */
  predicate NoCreation(w: World, w': World) {
    && w'.vault.escrowCount == w.vault.escrowCount
    && w'.byMentor == w.byMentor && w'.byLearner == w.byLearner
    && w'.usedNonces == w.usedNonces && w'.openSessions <= w.openSessions
  }

  /** No emergency action, failure record or clock tick. */
  predicate NoRecovery(w: World, w': World) {
    w'.emergency == w.emergency && w'.failures == w.failures && w'.now == w.now
  }

  /** What a creation leaves alone. */
  predicate Untouched(w: World, w': World) {
    NoRecovery(w, w') && w'.lowFee == w.lowFee && w'.vault.paid == w.vault.paid && w'.vault.msPaid == w.vault.msPaid
  }

  lemma PayOutFrame(w: World, k: nat, gross: int, fee: int, n: nat, closes: bool, actor: Address)
    requires k in w.vault.escrows && PayOut(w, k, gross, fee, n, closes, actor).Some?
    ensures var w' := PayOut(w, k, gross, fee, n, closes, actor).value;
      && NoCreation(w, w') && NoRecovery(w, w') && w'.config == w.config
      && w'.openSessions == w.openSessions && w'.isolated == w.isolated && w'.lowFee == w.lowFee
      && w'.vault.msPaid == w.vault.msPaid
  {
  }

  lemma CreateFrame(w: World, mentor: Address, learner: Address, amount: int, session: Symbol, token: Address, sessionEnd: nat,
                    usd: int, quoted: int, send: Address, dest: Address, n: nat)
    requires CreateInternal(w, mentor, learner, amount, session, token, sessionEnd, usd, quoted, send, dest, n).Some?
    ensures Untouched(w, CreateInternal(w, mentor, learner, amount, session, token, sessionEnd, usd, quoted, send, dest, n).value)
  {
  }

  lemma CreatesFrame(w: World, c: Call)
    requires Creates(c) && AttemptCreate(w, c).Some?
    ensures Untouched(w, AttemptCreate(w, c).value)
  {
    match c
    case CallCreate(mentor, learner, amount, session, token, end, n) =>
      CreateFrame(w, mentor, learner, amount, session, token, end, 0, amount, token, token, n);
    case CallCreateUsd(mentor, learner, usd, token, n, oracle) =>
      var amount := usd * 10000000 / oracle.price;
      CreateFrame(w, mentor, learner, amount, USD_SESSION, token, w.now, usd, amount, token, token, n);
    case CallCreatePath(learner, mentor, send, sendMax, token, amount, n) =>
      CreateFrame(w, mentor, learner, amount, PATH_SESSION, token, 0, 0, amount, send, token, n);
    case CallCreateMilestones(mentor, learner, amounts, token) =>
  }

  /** What a release pays out, at which fee and for how many sessions. */
  datatype Payout = Payout(id: nat, gross: int, fee: int, sessions: nat, closes: bool, actor: Address)

  predicate Pays(c: Call) {
    Releases(c) && (c.CallAutoRelease? ==> c.prechecksOk)
  }

  function PayoutOf(w: World, c: Call): Payout
    requires Pays(c) && c.id in w.vault.escrows
  {
    var e, fees := w.vault.escrows[c.id], w.config.fees;
    match c
    case CallRelease(caller, id, q) => Payout(id, e.amount, UnifiedFee(fees, q, e.amount), 0, true, caller)
    case CallAdminRelease(caller, id, q) => Payout(id, e.amount, UnifiedFee(fees, q, e.amount), 0, true, caller)
    case CallAutoRelease(id, _, q) => Payout(id, e.amount, UnifiedFee(fees, q, e.amount), 0, true, SELF)
    case CallManualRecovery(caller, id) => Payout(id, e.amount, FlatFee(fees.feeBps, e.amount), 0, true, caller)
    case CallPartial(caller, id, q) => SessionsPayout(e, fees, id, 1, q, caller)
    case CallBatch(caller, id, n, q) => SessionsPayout(e, fees, id, n, q, caller)
  }

  function SessionsPayout(e: Escrow, fees: FeeConfig, id: nat, n: nat, q: Quote, actor: Address): Payout {
    Payout(id, SessionGross(e, n), UnifiedFee(fees, q, SessionGross(e, n)), n, e.sessionsDone + n == e.totalSessions, actor)
  }

  function Applied(w: World, p: Payout): Option<World>
    requires p.id in w.vault.escrows
  {
    PayOut(w, p.id, p.gross, p.fee, p.sessions, p.closes, p.actor)
  }

  /** Every release that is not a recorded failure is one payout from an Active escrow. */
  lemma ReleaseIsPayout(w: World, c: Call)
    requires Pays(c) && AttemptRelease(w, c).Some?
    ensures w.HasStatus(c.id, Active) && Applied(w, PayoutOf(w, c)).Some?
    ensures var w', r := AttemptRelease(w, c).value, Applied(w, PayoutOf(w, c)).value; w'.vault == r.vault && w'.log == r.log
  {
  }

  /** Beyond the payout a release touches its own counter, session key or failure record only. */
  lemma ReleasesFrame(w: World, c: Call)
    requires Releases(c) && AttemptRelease(w, c).Some?
    ensures var w' := AttemptRelease(w, c).value;
      && NoCreation(w, w') && w'.emergency == w.emergency && w'.now == w.now && w'.vault.msPaid == w.vault.msPaid
      && (!c.CallAutoRelease? && !c.CallManualRecovery? ==> w'.failures == w.failures)
      && (!c.CallRelease? ==> w'.lowFee == w.lowFee)
      && (c.CallRelease? ==>
            && c.id in w.vault.escrows && LowFeeCount(w, w.vault.escrows[c.id]) <= MAX_LOW_FEE_SESSIONS_PER_PAIR
            && w'.lowFee == w.lowFee[(w.vault.escrows[c.id].mentor, w.vault.escrows[c.id].learner) := LowFeeCount(w, w.vault.escrows[c.id])])
  {
    if Pays(c) {
      ReleaseIsPayout(w, c);
      var p := PayoutOf(w, c);
      PayOutFrame(w, p.id, p.gross, p.fee, p.sessions, p.closes, p.actor);
    }
  }

  /** An emergency execution either leaves money and log alone or is a plain payout of the rest at the flat fee. */
  lemma EmergencyPaysOut(w: World, caller: Address, aid: nat)
    requires ExecuteEmergency(w, caller, aid).Some?
    ensures aid in w.emergency.actions
    ensures var (w', done) := ExecuteEmergency(w, caller, aid).value; var k := w.emergency.actions[aid].params.escrowId;
      && NoCreation(w, w') && w'.now == w.now && w'.config == w.config && w'.lowFee == w.lowFee
      && w'.vault.msPaid == w.vault.msPaid
      && (!done ==> w'.vault == w.vault && w'.log == w.log && w'.failures == w.failures)
      && (done ==>
            && w.HasStatus(k, Active) && ReleaseRestSimple(w, k, caller).Some?
            && w'.vault == ReleaseRestSimple(w, k, caller).value.vault && w'.log == ReleaseRestSimple(w, k, caller).value.log
            && w'.failures == w.failures - {k})
  {
    if ExecuteEmergency(w, caller, aid).value.1 {
      var k := w.emergency.actions[aid].params.escrowId;
      PayOutFrame(w, k, w.vault.escrows[k].amount, FlatFee(w.config.fees.feeBps, w.vault.escrows[k].amount), 0, true, caller);
    }
  }

  lemma ExecuteFrame(w: World, caller: Address, aid: nat)
    requires ExecuteEmergency(w, caller, aid).Some?
    ensures var w' := ExecuteEmergency(w, caller, aid).value.0; NoCreation(w, w') && w'.now == w.now && w'.lowFee == w.lowFee
  {
    EmergencyPaysOut(w, caller, aid);
  }

  lemma SettlesFrame(w: World, c: Call)
    requires Settles(c) && AttemptSettle(w, c).Some?
    ensures var w' := AttemptSettle(w, c).value;
      NoCreation(w, w') && w'.now == w.now && w'.lowFee == w.lowFee && (!c.CallExecuteEmergency? ==> NoRecovery(w, w'))
  {
    if c.CallExecuteEmergency? {
      ExecuteFrame(w, c.caller, c.id);
    }
  }

  lemma ConfiguresFrame(w: World, c: Call)
    requires Configures(c) && AttemptConfigure(w, c).Some?
    ensures var w' := AttemptConfigure(w, c).value;
      NoCreation(w, w') && NoRecovery(w, w') && w'.vault == w.vault && w'.log == w.log
  {
  }

  lemma OtherFrame(w: World, c: Call)
    requires !Creates(c) && !Releases(c) && !Settles(c) && !Configures(c) && AttemptOther(w, c).Some?
    ensures var w' := AttemptOther(w, c).value;
      && NoCreation(w, w') && w'.failures == w.failures && w.now <= w'.now && w'.log == w.log
      && (!c.CallTimePasses? ==> w'.now == w.now)
      && (!c.CallProposeEmergency? && !c.CallApproveEmergency? ==> w'.emergency == w.emergency)
      && w'.vault.escrows == w.vault.escrows && w'.vault.milestones == w.vault.milestones
  {
  }
}
